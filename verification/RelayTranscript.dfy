/** Everything the channel router sends, over whole runs: the frames with an id and the messages to a
    number are, one by one, what the events for the channel call for.

    What an event calls for is written here by event and channel, in terms of what arrives, without
    the handlers. */
module RelayTranscript {
  import opened Wrappers
  import opened Bits
  import opened Framing
  import opened ChannelMessages
  import opened RelayMux
  import opened RelayRouting
  import opened RelayTraces
  import opened RelayForwarded
  import opened RelayWire
  import opened RelayNumbers
  import opened Runs

  // --------------------------------------------------- towards the client

  // The operator's message is for the relayed channel with this id, which its connection lists.
  predicate ListedWithId(s: State, conn: nat, l: nat, id: nat) {
    && conn in s.conns && l in s.conns[conn].channels
    && s.conns[conn].channels[l] < |s.chans| && s.chans[s.conns[conn].channels[l]].kind == Remote(id)
  }

  // What the client is sent for this id: the open, and then what the operator sends, piece by piece.
  function FramesDue(s: State, e: Event, id: nat): seq<Frame> {
    if !e.Operator? then []
    else match e.got
      case ChannelOpen(supported, _) => if supported && s.counter == id then [OpenChannel(id)] else []
      case GotData(l, data) => if ListedWithId(s, e.conn, l, id) then [ChannelData(id, data)] else []
      case GotExtended(l, code, data) => if ListedWithId(s, e.conn, l, id) then [ChannelExtended(id, code, data)] else []
      case GotEof(l) => if ListedWithId(s, e.conn, l, id) then [ChannelEof(id)] else []
      case GotClose(l) => if ListedWithId(s, e.conn, l, id) then [ChannelClose(id)] else []
      case GotRequest(l, name, wantReply, payload) =>
        if ListedWithId(s, e.conn, l, id) then [ChannelRequest(id, name, wantReply, payload)] else []
      case _ => []
  }

  function FrameFor(o: Output, id: nat): seq<Frame> {
    if o.ToClient? && o.frame.id == id then [o.frame] else []
  }

  // Outputs with at most one frame, the first.
  lemma OneFrame(outputs: seq<Output>, id: nat)
    requires outputs != [] && forall i :: 1 <= i < |outputs| ==> !outputs[i].ToClient?
    ensures Gathered((o: Output) => FrameFor(o, id), outputs) == FrameFor(outputs[0], id)
  {
    NoFrame(outputs[1..], id);
    assert FrameFor(outputs[0], id) + [] == FrameFor(outputs[0], id);
  }

  lemma NoFrame(outputs: seq<Output>, id: nat)
    requires forall i :: 0 <= i < |outputs| ==> !outputs[i].ToClient?
    ensures Gathered((o: Output) => FrameFor(o, id), outputs) == []
  {
    NothingFound((o: Output) => FrameFor(o, id), outputs);
  }

  lemma ChannelFrames(s: State, conn: nat, got: FromOperator, id: nat)
    requires Inv(s) && Enabled(s, Operator(conn, got)) && !got.ChannelOpen? && got.localId in s.conns[conn].channels
    ensures Gathered((o: Output) => FrameFor(o, id), OnChannel(s, s.conns[conn].channels[got.localId], got).outputs) == FramesDue(s, Operator(conn, got), id)
  {
    ListedAs(s, conn, got.localId);
    var outputs := OnChannel(s, s.conns[conn].channels[got.localId], got).outputs;
    if outputs != [] { OneFrame(outputs, id); }
  }

  lemma StepFrames(s: State, e: Event, id: nat)
    requires Inv(s) && Enabled(s, e)
    ensures Gathered((o: Output) => FrameFor(o, id), Handle(s, e).outputs) == FramesDue(s, e, id)
  {
    var outputs := Handle(s, e).outputs;
    match e {
      case Operator(conn, got) =>
        if !got.ChannelOpen? && got.localId in s.conns[conn].channels {
          ListedAs(s, conn, got.localId);
          ChannelFrames(s, conn, got, id);
        } else if outputs != [] {
          OneFrame(outputs, id);
        }
      case Client(f) =>
        if !f.Confirm? && f.id in s.client { StoredAs(s, f.id); }
        NoFrame(outputs, id);
      case Wake(conn, _) =>
        OpeningAs(s, conn);
        NoFrame(outputs, id);
      case _ => NoFrame(outputs, id);
    }
  }

  // Over every run and for every id, the frames with that id are the open and what operators sent to
  // the channel with that id while it was listed, each once and in order.
  lemma FramesAreDue(events: seq<Event>, id: nat)
    requires Possible(MUX, START, events)
    ensures Gathered((o: Output) => FrameFor(o, id), After(MUX, START, events).outputs)
      == Taken(MUX, (s: State, e: Event) => FramesDue(s, e, id), START, events)
  {
    StartConsistent();
    var f, take := (o: Output) => FrameFor(o, id), (s: State, e: Event) => FramesDue(s, e, id);
    forall s, e | Inv(s) && MUX.enabled(s, e)
      ensures Gathered(f, MUX.step(s, e).outputs) == take(s, e)
    {
      StepFrames(s, e, id);
    }
    TotalsAgree(MUX, Inv, take, f, START, events);
  }

  // -------------------------------------------------- towards the operator

  // The operator's message is for the channel with this number, which its connection lists.
  predicate ListedWithNumber(s: State, conn: nat, l: nat, n: nat) {
    && conn in s.conns && l in s.conns[conn].channels
    && s.conns[conn].channels[l] < |s.chans| && s.chans[s.conns[conn].channels[l]].recipient == Some(n)
  }

  predicate ListedRelayed(s: State, conn: nat, l: nat) {
    && conn in s.conns && l in s.conns[conn].channels
    && s.conns[conn].channels[l] < |s.chans| && s.chans[s.conns[conn].channels[l]].kind.Remote?
  }

  // The requests that the relay answers with success, on behalf of the client.
  const ANSWERED: set<string> := {"pty-req", "env", "shell", "exec", "subsystem", "window-change", "signal"}

  // What the operator is answered under this number.
  function AnswersDue(s: State, conn: nat, got: FromOperator, n: nat): seq<Message> {
    match got
    case ChannelOpen(supported, sender) => if !supported && sender == n then [OpenFailure(n, 3)] else []
    case GotData(l, data) => if ListedWithNumber(s, conn, l, n) && data != [] then [WindowAdjust(n, |data|)] else []
    case GotExtended(l, _, data) => if ListedWithNumber(s, conn, l, n) && data != [] then [WindowAdjust(n, |data|)] else []
    case GotClose(l) => if ListedWithNumber(s, conn, l, n) then [Close(n)] else []
    case GotRequest(l, name, wantReply, _) =>
      if !wantReply || conn !in s.conns then []
      else if l !in s.conns[conn].channels then if l == n then [Failure(n)] else []
      else if !ListedWithNumber(s, conn, l, n) then []
      else if ListedRelayed(s, conn, l) && name in ANSWERED then [Success(n)] else [Failure(n)]
    case _ => []
  }

  // One message for every piece of data.
  function Carried(n: nat, code: Option<nat>, chunks: seq<bytes>): seq<Message> {
    if chunks == [] then []
    else [if code.Some? then ExtendedData(n, code.value, chunks[0]) else Data(n, chunks[0])] + Carried(n, code, chunks[1..])
  }

  // What comes in from the other end.
  function PassedDue(f: FromClient, n: nat): seq<Message> {
    match f
    case Confirm(_, _) => []
    case SentData(_, chunks) => Carried(n, None, chunks)
    case SentExtended(_, code, chunks) => Carried(n, Some(code), chunks)
    case SentRequest(_, name, wantReply, payload) => [Request(n, name, wantReply, payload)]
    case SentEof(_) => [Eof(n)]
    case SentClose(_) => [Close(n)]
  }

  // What the operator of this connection is told under this number.
  function MessagesDue(s: State, e: Event, conn: nat, n: nat): seq<Message> {
    match e
    case Operator(c, got) => if c == conn then AnswersDue(s, conn, got, n) else []
    case Client(f) => if f.id in s.client && HasNumber(s, s.client[f.id], conn, n) then PassedDue(f, n) else []
    case Wake(c, timedOut) =>
      if c != conn || c !in s.conns || s.conns[c].opening.None? || s.conns[c].opening.value.sender != n then []
      else if timedOut || s.conns[c].opening.value.answer != Some(true) then [OpenFailure(n, 2)]
      else if s.conns[c].opening.value.ref < |s.chans|
        then [OpenConfirmation(n, s.chans[s.conns[c].opening.value.ref].localId, 0x7FFF_FFFF, 32768)]
      else []
    case TcpData(ref, chunks) => if HasNumber(s, ref, conn, n) then Carried(n, None, chunks) else []
    case TcpEnd(ref) => if HasNumber(s, ref, conn, n) then [Eof(n), Close(n)] else []
    case _ => []
  }

  function MessageFor(o: Output, conn: nat, n: nat): seq<Message> {
    if ForNumber(o, conn, n) then [o.message] else []
  }

  predicate AllFor(messages: seq<Message>, n: nat) {
    forall i :: 0 <= i < |messages| ==> !messages[i].Open? && messages[i].recipient == n
  }

  // What is told on behalf of a channel goes to its number.
  lemma {:induction false} ToldFor(s: State, ref: nat, messages: seq<Message>, conn: nat, n: nat)
    requires ref < |s.chans| && AllFor(messages, To(s.chans[ref]))
    ensures Gathered((o: Output) => MessageFor(o, conn, n), Tell(s, ref, messages)) == if HasNumber(s, ref, conn, n) then messages else []
  {
    if messages != [] && s.chans[ref].recipient.Some? {
      ToldFor(s, ref, messages[1..], conn, n);
      assert Tell(s, ref, messages)[1..] == Tell(s, ref, messages[1..]);
      assert messages == [messages[0]] + messages[1..];
    }
  }

  lemma {:induction false} CarriedIs(n: nat, code: Option<nat>, chunks: seq<bytes>)
    ensures DataMessages(n, code, chunks) == Carried(n, code, chunks) && AllFor(Carried(n, code, chunks), n)
  {
    if chunks != [] { CarriedIs(n, code, chunks[1..]); }
  }

  lemma Behind(first: seq<Output>, told: seq<Output>, conn: nat, n: nat)
    requires forall i :: 0 <= i < |first| ==> !first[i].ToOperator?
    ensures Gathered((o: Output) => MessageFor(o, conn, n), first + told) == Gathered((o: Output) => MessageFor(o, conn, n), told)
  {
    GatheredAppend((o: Output) => MessageFor(o, conn, n), first, told);
    NothingFound((o: Output) => MessageFor(o, conn, n), first);
    assert [] + Gathered((o: Output) => MessageFor(o, conn, n), told) == Gathered((o: Output) => MessageFor(o, conn, n), told);
  }

  lemma OneMessage(o: Output, conn: nat, n: nat)
    ensures Gathered((o: Output) => MessageFor(o, conn, n), [o]) == MessageFor(o, conn, n)
    ensures Gathered((o: Output) => MessageFor(o, conn, n), []) == []
  {
    assert [o][1..] == [];
    assert MessageFor(o, conn, n) + [] == MessageFor(o, conn, n);
  }

  // The answer to a message for a listed channel, and what is sent before it.
  function AnswerTo(ch: Channel, got: FromOperator): seq<Message> {
    match got
    case GotData(_, data) => Adjustment(ch.recipient, |data|)
    case GotExtended(_, _, data) => Adjustment(ch.recipient, |data|)
    case GotClose(_) => [Close(To(ch))]
    case GotRequest(_, name, wantReply, _) =>
      if !wantReply then [] else if ch.kind.Remote? && name in SESSION_REQUESTS then [Success(To(ch))] else [Failure(To(ch))]
    case _ => []
  }

  lemma ChannelAnswers(s: State, ref: nat, got: FromOperator) returns (first: seq<Output>)
    requires IsChannel(s, ref)
    ensures OnChannel(s, ref, got).outputs == first + Tell(s, ref, AnswerTo(s.chans[ref], got))
    ensures forall i :: 0 <= i < |first| ==> !first[i].ToOperator?
    ensures AllFor(AnswerTo(s.chans[ref], got), To(s.chans[ref]))
  {
    var outputs := OnChannel(s, ref, got).outputs;
    var told := Tell(s, ref, AnswerTo(s.chans[ref], got));
    if outputs != [] && !outputs[0].ToOperator? {
      first := [outputs[0]];
    } else {
      first := [];
      assert [] + told == told;
    }
  }

  lemma AnswersAreDue(s: State, conn: nat, got: FromOperator, c: nat, n: nat, ref: nat)
    requires c in s.conns && !got.ChannelOpen? && got.localId in s.conns[c].channels && s.conns[c].channels[got.localId] == ref
    requires ref < |s.chans| && s.chans[ref].conn == c
    ensures MessagesDue(s, Operator(c, got), conn, n) == if HasNumber(s, ref, conn, n) then AnswerTo(s.chans[ref], got) else []
  {}

  lemma ListedMessages(s: State, conn: nat, got: FromOperator, c: nat, n: nat)
    requires Inv(s) && Enabled(s, Operator(c, got)) && !got.ChannelOpen? && got.localId in s.conns[c].channels
    ensures Gathered((o: Output) => MessageFor(o, conn, n), OnChannel(s, s.conns[c].channels[got.localId], got).outputs)
      == MessagesDue(s, Operator(c, got), conn, n)
  {
    ListedAs(s, c, got.localId);
    var ref := s.conns[c].channels[got.localId];
    var first := ChannelAnswers(s, ref, got);
    Behind(first, Tell(s, ref, AnswerTo(s.chans[ref], got)), conn, n);
    ToldFor(s, ref, AnswerTo(s.chans[ref], got), conn, n);
    AnswersAreDue(s, conn, got, c, n, ref);
  }

  lemma OperatorMessages(s: State, c: nat, got: FromOperator, conn: nat, n: nat)
    requires Inv(s) && Enabled(s, Operator(c, got))
    ensures Gathered((o: Output) => MessageFor(o, conn, n), OnOperator(s, c, got).outputs) == MessagesDue(s, Operator(c, got), conn, n)
  {
    var outputs := OnOperator(s, c, got).outputs;
    if !got.ChannelOpen? && got.localId in s.conns[c].channels {
      ListedAs(s, c, got.localId);
      ListedMessages(s, conn, got, c, n);
    } else {
      OneMessage(if outputs == [] then ToSocket(0, []) else outputs[0], conn, n);
    }
  }

  // What a frame of the client makes the relay say for the channel.
  lemma ClientAnswers(s: State, f: FromClient)
    requires Inv(s) && !f.Confirm? && f.id in s.client
    ensures var ref := s.client[f.id];
      IsChannel(s, ref) && OnClient(s, f).outputs == Tell(s, ref, PassedDue(f, To(s.chans[ref])))
      && AllFor(PassedDue(f, To(s.chans[ref])), To(s.chans[ref]))
  {
    StoredAs(s, f.id);
    var n := To(s.chans[s.client[f.id]]);
    match f {
      case SentData(_, chunks) => CarriedIs(n, None, chunks);
      case SentExtended(_, code, chunks) => CarriedIs(n, Some(code), chunks);
      case _ =>
    }
  }

  lemma StepMessages(s: State, e: Event, conn: nat, n: nat)
    requires Inv(s) && Enabled(s, e)
    ensures Gathered((o: Output) => MessageFor(o, conn, n), Handle(s, e).outputs) == MessagesDue(s, e, conn, n)
  {
    var outputs := Handle(s, e).outputs;
    match e {
      case Operator(c, got) => OperatorMessages(s, c, got, conn, n);
      case Client(f) =>
        if !f.Confirm? && f.id in s.client {
          ClientAnswers(s, f);
          ToldFor(s, s.client[f.id], PassedDue(f, To(s.chans[s.client[f.id]])), conn, n);
        }
      case Wake(c, _) =>
        OpeningAs(s, c);
        OneMessage(outputs[0], conn, n);
      case Accept(_) => OneMessage(outputs[0], conn, n);
      case TcpData(ref, chunks) =>
        CarriedIs(To(s.chans[ref]), None, chunks);
        ToldFor(s, ref, Carried(To(s.chans[ref]), None, chunks), conn, n);
      case TcpEnd(ref) => ToldFor(s, ref, [Eof(To(s.chans[ref])), Close(To(s.chans[ref]))], conn, n);
      case _ =>
    }
  }

  // Over every run and for every connection and number, the messages to that number are the answers
  // to what the operator sends for the channel that has it, and what comes in from the other end of
  // that channel, each once and in order.
  lemma MessagesAreDue(events: seq<Event>, conn: nat, n: nat)
    requires Possible(MUX, START, events)
    ensures Gathered((o: Output) => MessageFor(o, conn, n), After(MUX, START, events).outputs)
      == Taken(MUX, (s: State, e: Event) => MessagesDue(s, e, conn, n), START, events)
  {
    StartConsistent();
    var f, take := (o: Output) => MessageFor(o, conn, n), (s: State, e: Event) => MessagesDue(s, e, conn, n);
    forall s, e | Inv(s) && MUX.enabled(s, e)
      ensures Gathered(f, MUX.step(s, e).outputs) == take(s, e)
    {
      StepMessages(s, e, conn, n);
    }
    TotalsAgree(MUX, Inv, take, f, START, events);
  }

  // ------------------------------------------------------------ the window

  function Amounts(messages: seq<Message>): seq<nat> {
    if messages == [] then []
    else (if messages[0].WindowAdjust? then [messages[0].amount] else []) + Amounts(messages[1..])
  }

  // How much a WINDOW_ADJUST to this number grants.
  function AmountFor(o: Output, conn: nat, n: nat): seq<nat> {
    if ForNumber(o, conn, n) && o.message.WindowAdjust? then [o.message.amount] else []
  }

  // How much data the event brings from the operator for the listed channel with this number.
  function SizeArrived(s: State, e: Event, conn: nat, n: nat): seq<nat> {
    if e.Operator? && e.conn == conn && (e.got.GotData? || e.got.GotExtended?) && ListedWithNumber(s, conn, e.got.localId, n) && e.got.data != []
    then [|e.got.data|] else []
  }

  lemma {:induction false} AmountsGathered(outputs: seq<Output>, conn: nat, n: nat)
    ensures Gathered((o: Output) => AmountFor(o, conn, n), outputs) == Amounts(Gathered((o: Output) => MessageFor(o, conn, n), outputs))
  {
    if outputs != [] {
      var first, more := MessageFor(outputs[0], conn, n), Gathered((o: Output) => MessageFor(o, conn, n), outputs[1..]);
      AmountsGathered(outputs[1..], conn, n);
      if first == [] {
        assert first + more == more;
      } else {
        assert (first + more)[1..] == more;
      }
    }
  }

  lemma {:induction false} CarriedGrantsNothing(n: nat, code: Option<nat>, chunks: seq<bytes>)
    ensures Amounts(Carried(n, code, chunks)) == []
  {
    if chunks != [] {
      CarriedGrantsNothing(n, code, chunks[1..]);
      assert Carried(n, code, chunks)[1..] == Carried(n, code, chunks[1..]);
    }
  }

  lemma AmountsOfShort(messages: seq<Message>)
    requires |messages| <= 1
    ensures Amounts(messages) == if messages != [] && messages[0].WindowAdjust? then [messages[0].amount] else []
  {
    if messages != [] { assert messages[1..] == []; }
  }

  lemma AmountsOfEnd(n: nat)
    ensures Amounts([Eof(n), Close(n)]) == []
  {
    AmountsOfShort([Close(n)]);
    assert [Eof(n), Close(n)][1..] == [Close(n)];
  }

  lemma DueAmounts(s: State, e: Event, conn: nat, n: nat)
    ensures Amounts(MessagesDue(s, e, conn, n)) == SizeArrived(s, e, conn, n)
  {
    match e {
      case Client(f) =>
        match f {
          case SentData(_, chunks) => CarriedGrantsNothing(n, None, chunks);
          case SentExtended(_, code, chunks) => CarriedGrantsNothing(n, Some(code), chunks);
          case _ => AmountsOfShort(MessagesDue(s, e, conn, n));
        }
      case TcpData(_, chunks) => CarriedGrantsNothing(n, None, chunks);
      case TcpEnd(_) => AmountsOfEnd(n);
      case _ => AmountsOfShort(MessagesDue(s, e, conn, n));
    }
  }

  // Over every run and for every connection and number: the amounts of the WINDOW_ADJUST messages to
  // the number are the sizes of the data and extended data that came in for the listed channel with
  // that number, one after the other.  Nothing else grants anything.
  lemma EveryByteIsGranted(events: seq<Event>, conn: nat, n: nat)
    requires Possible(MUX, START, events)
    ensures Gathered((o: Output) => AmountFor(o, conn, n), After(MUX, START, events).outputs)
      == Taken(MUX, (s: State, e: Event) => SizeArrived(s, e, conn, n), START, events)
  {
    StartConsistent();
    var f, take := (o: Output) => AmountFor(o, conn, n), (s: State, e: Event) => SizeArrived(s, e, conn, n);
    forall s, e | Inv(s) && MUX.enabled(s, e)
      ensures Gathered(f, MUX.step(s, e).outputs) == take(s, e)
    {
      StepMessages(s, e, conn, n);
      AmountsGathered(Handle(s, e).outputs, conn, n);
      DueAmounts(s, e, conn, n);
    }
    TotalsAgree(MUX, Inv, take, f, START, events);
  }

  // ------------------------------------------------- forwarded connections

  // The data that leaves on the TCP connection of a forwarded channel.
  function SocketData(o: Output, ref: nat): bytes {
    if o.ToSocket? && o.via == ref then o.data else []
  }

  // The data that its operator sends for it while it is listed.
  function SocketDue(s: State, e: Event, ref: nat): bytes {
    if e.Operator? && (e.got.GotData? || e.got.GotExtended?) && e.conn in s.conns
       && Find(s.conns[e.conn].channels, e.got.localId) == Some(ref) && ref < |s.chans| && s.chans[ref].kind.Forwarded? then e.got.data
    else []
  }

  // The open that announces an accepted connection.
  function OpenFor(o: Output, conn: nat): seq<Message> {
    if o.ToOperator? && o.conn == conn && o.message.Open? then [o.message] else []
  }

  function OpenDue(s: State, e: Event, conn: nat): seq<Message> {
    if e.Accept? && e.conn == conn && conn in s.conns then [Open(s.conns[conn].nextId)] else []
  }

  lemma NoSocketData(outputs: seq<Output>, ref: nat)
    requires forall i :: 0 <= i < |outputs| ==> !outputs[i].ToSocket?
    ensures Gathered((o: Output) => SocketData(o, ref), outputs) == []
  {
    NothingFound((o: Output) => SocketData(o, ref), outputs);
  }

  lemma FirstSocketData(outputs: seq<Output>, ref: nat)
    requires outputs != [] && forall i :: 1 <= i < |outputs| ==> !outputs[i].ToSocket?
    ensures Gathered((o: Output) => SocketData(o, ref), outputs) == SocketData(outputs[0], ref)
  {
    NoSocketData(outputs[1..], ref);
    assert SocketData(outputs[0], ref) + [] == SocketData(outputs[0], ref);
  }

  lemma ChannelSocketData(s: State, conn: nat, got: FromOperator, ref: nat)
    requires Inv(s) && Enabled(s, Operator(conn, got)) && !got.ChannelOpen? && got.localId in s.conns[conn].channels
    ensures Gathered((o: Output) => SocketData(o, ref), OnChannel(s, s.conns[conn].channels[got.localId], got).outputs) == SocketDue(s, Operator(conn, got), ref)
  {
    ListedAs(s, conn, got.localId);
    var other := s.conns[conn].channels[got.localId];
    var outputs := OnChannel(s, other, got).outputs;
    FirstIsWritten(s, other, got);
    if outputs != [] { FirstSocketData(outputs, ref); }
  }

  // A forwarded channel writes first, and only data.
  lemma FirstIsWritten(s: State, other: nat, got: FromOperator)
    requires IsChannel(s, other) && !got.ChannelOpen?
    ensures var outputs := OnChannel(s, other, got).outputs;
      && (forall i :: 1 <= i < |outputs| ==> !outputs[i].ToSocket?)
      && (if s.chans[other].kind.Forwarded? && (got.GotData? || got.GotExtended?)
          then outputs != [] && outputs[0] == ToSocket(other, got.data) else outputs != [] ==> !outputs[0].ToSocket?)
  {}

  lemma StepSocketData(s: State, e: Event, ref: nat)
    requires Inv(s) && Enabled(s, e)
    ensures Gathered((o: Output) => SocketData(o, ref), Handle(s, e).outputs) == SocketDue(s, e, ref)
  {
    var outputs := Handle(s, e).outputs;
    match e {
      case Operator(conn, got) =>
        if !got.ChannelOpen? && got.localId in s.conns[conn].channels {
          ListedAs(s, conn, got.localId);
          ChannelSocketData(s, conn, got, ref);
        } else {
          NoSocketData(outputs, ref);
        }
      case Client(f) =>
        if !f.Confirm? && f.id in s.client { StoredAs(s, f.id); }
        NoSocketData(outputs, ref);
      case Wake(conn, _) =>
        OpeningAs(s, conn);
        NoSocketData(outputs, ref);
      case _ => NoSocketData(outputs, ref);
    }
  }

  // Over every run, what is written to the TCP connection of a forwarded channel is what its
  // operator sends for it while it is listed, byte for byte and in order.
  lemma SocketsGetTheirData(events: seq<Event>, ref: nat)
    requires Possible(MUX, START, events)
    ensures Gathered((o: Output) => SocketData(o, ref), After(MUX, START, events).outputs)
      == Taken(MUX, (s: State, e: Event) => SocketDue(s, e, ref), START, events)
  {
    StartConsistent();
    var f, take := (o: Output) => SocketData(o, ref), (s: State, e: Event) => SocketDue(s, e, ref);
    forall s, e | Inv(s) && MUX.enabled(s, e)
      ensures Gathered(f, MUX.step(s, e).outputs) == take(s, e)
    {
      StepSocketData(s, e, ref);
    }
    TotalsAgree(MUX, Inv, take, f, START, events);
  }

  lemma OneOpen(o: Output, conn: nat)
    ensures Gathered((o: Output) => OpenFor(o, conn), [o]) == OpenFor(o, conn)
  {
    assert [o][1..] == [];
    assert OpenFor(o, conn) + [] == OpenFor(o, conn);
  }

  lemma OnlyAcceptsOpen(s: State, e: Event, i: nat)
    requires Inv(s) && Enabled(s, e) && i < |Handle(s, e).outputs| && !e.Accept?
    ensures !(Handle(s, e).outputs[i].ToOperator? && Handle(s, e).outputs[i].message.Open?)
  {
    match e {
      case Operator(conn, got) =>
        if !got.ChannelOpen? && got.localId in s.conns[conn].channels { ListedAs(s, conn, got.localId); }
      case Client(f) =>
        if !f.Confirm? && f.id in s.client {
          ClientAnswers(s, f);
          assert !PassedDue(f, To(s.chans[s.client[f.id]]))[i].Open?;
        }
      case Wake(conn, _) => OpeningAs(s, conn);
      case TcpData(ref, chunks) => CarriedIs(To(s.chans[ref]), None, chunks);
      case _ =>
    }
  }

  lemma StepOpens(s: State, e: Event, conn: nat)
    requires Inv(s) && Enabled(s, e)
    ensures Gathered((o: Output) => OpenFor(o, conn), Handle(s, e).outputs) == OpenDue(s, e, conn)
  {
    var outputs := Handle(s, e).outputs;
    if e.Accept? {
      OneOpen(outputs[0], conn);
    } else {
      forall i | 0 <= i < |outputs|
        ensures OpenFor(outputs[i], conn) == []
      {
        OnlyAcceptsOpen(s, e, i);
      }
      NothingFound((o: Output) => OpenFor(o, conn), outputs);
    }
  }

  // Every accepted connection is announced to its operator once, under the next free id, and nothing
  // else is.
  lemma OpensAreDue(events: seq<Event>, conn: nat)
    requires Possible(MUX, START, events)
    ensures Gathered((o: Output) => OpenFor(o, conn), After(MUX, START, events).outputs)
      == Taken(MUX, (s: State, e: Event) => OpenDue(s, e, conn), START, events)
  {
    StartConsistent();
    var f, take := (o: Output) => OpenFor(o, conn), (s: State, e: Event) => OpenDue(s, e, conn);
    forall s, e | Inv(s) && MUX.enabled(s, e)
      ensures Gathered(f, MUX.step(s, e).outputs) == take(s, e)
    {
      StepOpens(s, e, conn);
    }
    TotalsAgree(MUX, Inv, take, f, START, events);
  }
}
