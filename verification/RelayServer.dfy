/** The handlers of relay.py as they change the dictionaries, counters and channels step by
    step: the connection loop of SSHConnection, the reader loop and open_channel of
    RegisteredClient.  Each is proved to be one step of the state machine in RelayMux, so that
    what is proved of its runs holds of everything a Relay object ever sends. */
module RelayServer {
  import opened Wrappers
  import opened Bits
  import opened ChannelMessages
  import opened Runs
  import opened RelayMux
  import opened RelayRouting
  import opened RelayTraces
  import opened RelayForwarded
  import opened RelayWire
  import opened RelayNumbers
  import opened RelayTeardown
  import RelayTranscript
  import Windows
  import SshChannels

  // A frame of the client with data for a channel.
  function DataFrame(id: nat, code: Option<nat>, chunks: seq<bytes>): Event {
    Client(if code.Some? then SentExtended(id, code.value, chunks) else SentData(id, chunks))
  }

  class Relay {
    var counter: nat
    var pending: map<nat, nat>
    var client: map<nat, nat>
    var conns: map<nat, Connection>
    var chans: seq<Channel>
    var sent: seq<Output>

    ghost var history: seq<Event>

    ghost function Now(): State
      reads this
    {
      State(counter, pending, client, conns, chans)
    }

    // What one step of the state machine does to the fields.
    twostate predicate Did(e: Event)
      reads this
      requires Enabled(old(Now()), e)
    {
      Now() == Handle(old(Now()), e).s && sent == old(sent) + Handle(old(Now()), e).outputs
    }

    // The fields and the log are what a run of the state machine leads to.
    ghost predicate Valid()
      reads this
    {
      Inv(Now()) && Possible(MUX, START, history) && After(MUX, START, history) == Effect(Now(), sent)
    }

    constructor ()
      ensures Valid() && history == [] && Now() == START && sent == []
    {
      counter, pending, client, conns, chans, sent := 1, map[], map[], map[], [], [];
      history := [];
      new;
      StartConsistent();
    }

    // One step behind the run that led here.
    lemma Recorded(s: State, log: seq<Output>, events: seq<Event>, e: Event)
      requires Inv(s) && Possible(MUX, START, events) && After(MUX, START, events) == Effect(s, log) && Enabled(s, e)
      requires history == events + [e] && Now() == Handle(s, e).s && sent == log + Handle(s, e).outputs
      ensures Valid()
    {
      HandleKeeps(s, e);
      StepLast(MUX, START, events, e);
    }

    method Say(o: Output)
      modifies `sent
      ensures sent == old(sent) + [o]
    {
      sent := sent + [o];
    }

    // send_payload on behalf of a channel that has a recipient.
    method Tell1(ref: nat, message: Message)
      requires ref < |chans|
      modifies `sent
      ensures sent == old(sent) + Tell(Now(), ref, [message])
    {
      if chans[ref].recipient.Some? {
        sent := sent + [ToOperator(chans[ref].conn, Some(ref), message)];
      }
    }

    method MarkClosed(ref: nat)
      requires ref < |chans|
      modifies `chans
      ensures Now() == Marked(old(Now()), ref)
    {
      chans := chans[ref := chans[ref].(closed := true)];
    }

    // self.channels.pop(local_id, None)
    method PopChannel(conn: nat, localId: nat)
      requires conn in conns
      modifies `conns
      ensures Now() == Unlisted(old(Now()), conn, localId)
    {
      conns := conns[conn := conns[conn].(channels := conns[conn].channels - {localId})];
    }

    method ForgetChannel(remoteId: nat)
      modifies `client
      ensures Now() == Forgotten(old(Now()), remoteId)
    {
      client := client - {remoteId};
    }

    // A new RemoteRelayChannel and RegisteredClient.open_channel up to the wait.
    method OpenRemoteChannel(conn: nat, sender: nat)
      requires conn in conns
      modifies `counter, `pending, `client, `conns, `chans, `sent
      ensures var o := StartOpen(old(Now()), conn, sender); Now() == o.s && sent == old(sent) + o.outputs
    {
      var localId := conns[conn].nextId;
      conns := conns[conn := conns[conn].(nextId := localId + 1)];
      var ref := |chans|;
      var channelId := counter;
      counter := counter + 1;
      chans := chans + [Channel(conn, localId, Remote(channelId), None, false)];
      client := client[channelId := ref];
      pending := pending[channelId := conn];
      conns := conns[conn := conns[conn].(opening := Some(Opening(ref, sender, None)))];
      Say(ToClient(ref, OpenChannel(channelId)));
    }

    method HandleChannelOpen(conn: nat, supported: bool, sender: nat)
      requires Inv(Now()) && Enabled(Now(), Operator(conn, ChannelOpen(supported, sender)))
      modifies `counter, `pending, `client, `conns, `chans, `sent
      ensures Did(Operator(conn, ChannelOpen(supported, sender))) && Inv(Now())
    {
      HandleKeeps(Now(), Operator(conn, ChannelOpen(supported, sender)));
      if supported {
        OpenRemoteChannel(conn, sender);
      } else {
        Say(ToOperator(conn, None, OpenFailure(sender, UNKNOWN_CHANNEL_TYPE)));
      }
    }

    // open_channel returns False.
    method RefuseOpen(conn: nat, timedOut: bool)
      requires conn in conns && conns[conn].opening.Some? && conns[conn].opening.value.ref < |chans|
      modifies `counter, `pending, `client, `conns, `chans, `sent
      ensures var o := OpenFailed(old(Now()), conn, timedOut); Now() == o.s && sent == old(sent) + o.outputs
    {
      var o := conns[conn].opening.value;
      conns := conns[conn := conns[conn].(opening := None)];
      match chans[o.ref].kind {
        case Remote(channelId) =>
          client := client - {channelId};
          if timedOut { pending := pending - {channelId}; }
        case Forwarded(_) =>
          assert client - {} == client && pending - {} == pending;
      }
      Say(ToOperator(conn, None, OpenFailure(o.sender, CONNECT_FAILED)));
    }

    // The wait is over.
    method FinishChannelOpen(conn: nat, timedOut: bool)
      requires Inv(Now()) && Enabled(Now(), Wake(conn, timedOut))
      modifies `counter, `pending, `client, `conns, `chans, `sent
      ensures Did(Wake(conn, timedOut)) && Inv(Now())
    {
      HandleKeeps(Now(), Wake(conn, timedOut));
      assert OpeningAt(Now(), conn);
      var o := conns[conn].opening.value;
      if timedOut || o.answer != Some(true) {
        RefuseOpen(conn, timedOut);
        return;
      }
      var localId := chans[o.ref].localId;
      chans := chans[o.ref := chans[o.ref].(recipient := Some(o.sender))];
      conns := conns[conn := conns[conn].(opening := None, channels := conns[conn].channels[localId := o.ref])];
      Say(ToOperator(conn, Some(o.ref), OpenConfirmation(o.sender, localId, CHANNEL_WINDOW, CHANNEL_MAX_PACKET)));
    }

    // _adjust_local_window
    method AdjustLocalWindow(ref: nat, amount: nat)
      requires ref < |chans|
      modifies `sent
      ensures sent == old(sent) + Tell(Now(), ref, Adjustment(chans[ref].recipient, amount))
    {
      if chans[ref].recipient.Some? && amount > 0 {
        sent := sent + [ToOperator(chans[ref].conn, Some(ref), WindowAdjust(chans[ref].recipient.value, amount))];
      }
    }

    // SSH_MSG_CHANNEL_DATA, and with a code SSH_MSG_CHANNEL_EXTENDED_DATA.
    method HandleData(conn: nat, localId: nat, code: Option<nat>, data: bytes)
      requires var e := Operator(conn, if code.Some? then GotExtended(localId, code.value, data) else GotData(localId, data));
        Inv(Now()) && Enabled(Now(), e)
      modifies `counter, `pending, `client, `conns, `chans, `sent
      ensures Did(Operator(conn, if code.Some? then GotExtended(localId, code.value, data) else GotData(localId, data)))
    {
      if localId !in conns[conn].channels { return; }
      assert ListedAt(Now(), conn, localId) && NumberedAt(Now(), conns[conn].channels[localId]);
      var ref := conns[conn].channels[localId];
      match chans[ref].kind {
        case Remote(id) => Say(ToClient(ref, if code.Some? then ChannelExtended(id, code.value, data) else ChannelData(id, data)));
        case Forwarded(_) => Say(ToSocket(ref, data));
      }
      AdjustLocalWindow(ref, |data|);
    }

    // SSH_MSG_CHANNEL_CLOSE
    method HandleClose(conn: nat, localId: nat)
      requires Inv(Now()) && Enabled(Now(), Operator(conn, GotClose(localId)))
      modifies `counter, `pending, `client, `conns, `chans, `sent
      ensures Did(Operator(conn, GotClose(localId))) && Inv(Now())
    {
      HandleKeeps(Now(), Operator(conn, GotClose(localId)));
      if localId !in conns[conn].channels { return; }
      assert ListedAt(Now(), conn, localId) && NumberedAt(Now(), conns[conn].channels[localId]);
      var ref := conns[conn].channels[localId];
      PopChannel(conn, localId);
      OnSshClose(ref);
      Tell1(ref, Close(To(chans[ref])));
    }

    // on_ssh_close of both kinds of channels.
    method OnSshClose(ref: nat)
      requires ref < |chans|
      modifies `chans, `client, `sent
      ensures var s, kind := Marked(old(Now()), ref), old(chans[ref].kind);
        if kind.Remote? then Now() == Forgotten(s, kind.remoteId) && sent == old(sent) + [ToClient(ref, ChannelClose(kind.remoteId))]
        else Now() == s && sent == old(sent)
    {
      MarkClosed(ref);
      match chans[ref].kind {
        case Remote(id) =>
          Say(ToClient(ref, ChannelClose(id)));
          ForgetChannel(id);
        case Forwarded(_) =>
      }
    }

    // _handle_channel_request
    method HandleRequest(conn: nat, localId: nat, name: string, wantReply: bool, payload: bytes)
      requires Inv(Now()) && Enabled(Now(), Operator(conn, GotRequest(localId, name, wantReply, payload)))
      modifies `counter, `pending, `client, `conns, `chans, `sent
      ensures Did(Operator(conn, GotRequest(localId, name, wantReply, payload)))
    {
      if localId !in conns[conn].channels {
        if wantReply { Say(ToOperator(conn, None, Failure(localId))); }
        return;
      }
      assert ListedAt(Now(), conn, localId) && NumberedAt(Now(), conns[conn].channels[localId]);
      var ref := conns[conn].channels[localId];
      match chans[ref].kind {
        case Remote(id) =>
          Say(ToClient(ref, ChannelRequest(id, name, wantReply, payload)));
          if wantReply && name in SESSION_REQUESTS {
            Tell1(ref, Success(To(chans[ref])));
          } else if wantReply {
            Tell1(ref, Failure(To(chans[ref])));
          }
        case Forwarded(_) =>
          if wantReply { Tell1(ref, Failure(To(chans[ref]))); }
      }
    }

    // RemoteRelayChannel.remote_close, for a CHANNEL_CLOSE frame.
    method HandleRemoteClose(id: nat)
      requires Inv(Now())
      modifies `counter, `pending, `client, `conns, `chans, `sent
      ensures Did(Client(SentClose(id))) && Inv(Now())
    {
      HandleKeeps(Now(), Client(SentClose(id)));
      if id !in client { return; }
      assert ClientAt(Now(), id) && NumberedAt(Now(), client[id]);
      var ref := client[id];
      MarkClosed(ref);
      if chans[ref].recipient.Some? {
        PopChannel(chans[ref].conn, chans[ref].localId);
        Tell1(ref, Close(To(chans[ref])));
      }
      ForgetChannel(id);
    }

    // OPEN_CONFIRM of the reader loop.
    method HandleOpenConfirm(id: nat, ok: bool)
      requires Inv(Now())
      modifies `counter, `pending, `client, `conns, `chans, `sent
      ensures Did(Client(Confirm(id, ok))) && Inv(Now())
    {
      HandleKeeps(Now(), Client(Confirm(id, ok)));
      if id !in pending { return; }
      assert PendingAt(Now(), id);
      var conn := pending[id];
      pending := pending - {id};
      conns := conns[conn := conns[conn].(opening := Some(conns[conn].opening.value.(answer := Some(ok))))];
    }

    // The messages of send_channel_data and send_channel_extended_data.
    method SendChunks(ref: nat, code: Option<nat>, chunks: seq<bytes>)
      requires ref < |chans|
      modifies `sent
      ensures sent == old(sent) + Tell(Now(), ref, DataMessages(To(chans[ref]), code, chunks))
    {
      if chans[ref].recipient.Some? {
        SayAll(ref, DataMessages(chans[ref].recipient.value, code, chunks));
      }
    }

    // CHANNEL_DATA and CHANNEL_EXTENDED_DATA of the reader loop, cut into these chunks.
    method HandleRemoteChunks(id: nat, code: Option<nat>, chunks: seq<bytes>)
      requires Inv(Now())
      modifies `sent
      ensures Did(DataFrame(id, code, chunks))
    {
      if id !in client { return; }
      assert ClientAt(Now(), id) && NumberedAt(Now(), client[id]);
      var ref := client[id];
      SendChunks(ref, code, chunks);
    }

    // The same with the window of the channel, which cuts the data under any schedule of the
    // other threads.  An exception of the send loop is passed on.
    method HandleRemoteData(id: nat, code: Option<nat>, data: bytes, channel: SshChannels.SshChannel, schedule: Windows.Schedule)
      returns (outcome: Windows.Outcome, ghost chunks: seq<bytes>)
      requires Valid() && (id in client ==> client[id] < |chans| && channel.recipient == chans[client[id]].recipient)
      modifies `sent, `history, channel
      ensures Valid() && channel.recipient == old(channel.recipient)
      ensures history == old(history) + [DataFrame(id, code, chunks)] && Did(DataFrame(id, code, chunks))
      ensures chunks == Windows.Sending(old(channel.State()), data, schedule).chunks
      ensures id in client && channel.recipient.Some? ==>
        outcome == Windows.Sending(old(channel.State()), data, schedule).outcome
        && channel.State() == Windows.Sending(old(channel.State()), data, schedule).w
      ensures id !in client || channel.recipient.None? ==> outcome == Windows.Done && channel.State() == old(channel.State())
    {
      chunks := Windows.Sending(channel.State(), data, schedule).chunks;
      ghost var s, log, events := Now(), sent, history;
      outcome := SendIfStored(id, code, data, channel, schedule);
      history := events + [DataFrame(id, code, chunks)];
      Recorded(s, log, events, DataFrame(id, code, chunks));
    }

    method SendIfStored(id: nat, code: Option<nat>, data: bytes, channel: SshChannels.SshChannel, schedule: Windows.Schedule)
      returns (outcome: Windows.Outcome)
      requires Inv(Now()) && (id in client ==> client[id] < |chans| && channel.recipient == chans[client[id]].recipient)
      modifies `sent, channel
      ensures Did(DataFrame(id, code, Windows.Sending(old(channel.State()), data, schedule).chunks)) && channel.recipient == old(channel.recipient)
      ensures id in client && channel.recipient.Some? ==>
        outcome == Windows.Sending(old(channel.State()), data, schedule).outcome
        && channel.State() == Windows.Sending(old(channel.State()), data, schedule).w
      ensures id !in client || channel.recipient.None? ==> outcome == Windows.Done && channel.State() == old(channel.State())
    {
      outcome := Windows.Done;
      if id in client {
        assert ClientAt(Now(), id) && NumberedAt(Now(), client[id]);
        var messages, rest;
        messages, outcome, rest := SshChannels.SendOnChannel(channel, code, data, schedule);
        SayAll(client[id], messages);
      }
    }

    // send_payload for each of these, on behalf of a channel.
    method SayAll(ref: nat, messages: seq<Message>)
      requires ref < |chans| && (chans[ref].recipient.None? ==> messages == [])
      modifies `sent
      ensures sent == old(sent) + Tell(Now(), ref, messages)
    {
      ghost var all := Tell(Now(), ref, messages);
      for i := 0 to |messages|
        invariant sent == old(sent) + all[..i]
      {
        Say(ToOperator(chans[ref].conn, Some(ref), messages[i]));
        assert all[..i + 1] == all[..i] + [all[i]];
      }
      assert all[..|messages|] == all;
    }

    // SSH_MSG_CHANNEL_EOF
    method HandleEof(conn: nat, localId: nat)
      requires Inv(Now()) && Enabled(Now(), Operator(conn, GotEof(localId)))
      modifies `counter, `pending, `client, `conns, `chans, `sent
      ensures Did(Operator(conn, GotEof(localId)))
    {
      if localId !in conns[conn].channels { return; }
      assert ListedAt(Now(), conn, localId) && NumberedAt(Now(), conns[conn].channels[localId]);
      var ref := conns[conn].channels[localId];
      match chans[ref].kind {
        case Remote(id) => Say(ToClient(ref, ChannelEof(id)));
        case Forwarded(_) =>
      }
    }

    // _handle_open_confirmation
    method HandleOpenConfirmation(conn: nat, localId: nat, sender: nat)
      requires Inv(Now()) && Enabled(Now(), Operator(conn, GotConfirmation(localId, sender)))
      modifies `counter, `pending, `client, `conns, `chans, `sent
      ensures Did(Operator(conn, GotConfirmation(localId, sender)))
    {
      if localId !in conns[conn].channels { return; }
      assert ListedAt(Now(), conn, localId) && NumberedAt(Now(), conns[conn].channels[localId]);
      var ref := conns[conn].channels[localId];
      chans := chans[ref := chans[ref].(recipient := Some(sender))];
      SetOpenResult(ref, true);
    }

    // set_open_result; nobody waits for it any more once the reader runs or the channel was given up.
    method SetOpenResult(ref: nat, ok: bool)
      requires ref < |chans|
      modifies `chans
      ensures Now() == OpenResult(old(Now()), ref, ok)
    {
      if IsWaiting(chans[ref].kind) {
        chans := chans[ref := chans[ref].(kind := Forwarded(Waiting(ok)))];
      }
    }

    // _handle_open_failure
    method HandleOpenFailure(conn: nat, localId: nat)
      requires Inv(Now()) && Enabled(Now(), Operator(conn, GotFailure(localId)))
      modifies `counter, `pending, `client, `conns, `chans, `sent
      ensures Did(Operator(conn, GotFailure(localId)))
    {
      if localId !in conns[conn].channels { return; }
      assert ListedAt(Now(), conn, localId) && NumberedAt(Now(), conns[conn].channels[localId]);
      var ref := conns[conn].channels[localId];
      PopChannel(conn, localId);
      SetOpenResult(ref, false);
    }

    // CHANNEL_EOF and CHANNEL_REQUEST of the reader loop.
    method HandleRemoteEof(id: nat)
      requires Inv(Now())
      modifies `sent
      ensures Did(Client(SentEof(id)))
    {
      if id !in client { return; }
      assert ClientAt(Now(), id) && NumberedAt(Now(), client[id]);
      Tell1(client[id], Eof(To(chans[client[id]])));
    }

    method HandleRemoteRequest(id: nat, name: string, wantReply: bool, payload: bytes)
      requires Inv(Now())
      modifies `sent
      ensures Did(Client(SentRequest(id, name, wantReply, payload)))
    {
      if id !in client { return; }
      assert ClientAt(Now(), id) && NumberedAt(Now(), client[id]);
      Tell1(client[id], Request(To(chans[client[id]]), name, wantReply, payload));
    }

    // create_forwarded_channel, and the CHANNEL_OPEN that goes out for it.
    method CreateForwardedChannel(conn: nat)
      requires Inv(Now()) && Enabled(Now(), Accept(conn))
      modifies `counter, `pending, `client, `conns, `chans, `sent
      ensures Did(Accept(conn))
    {
      var localId := conns[conn].nextId;
      conns := conns[conn := conns[conn].(nextId := localId + 1)];
      var ref := |chans|;
      chans := chans + [Channel(conn, localId, Forwarded(Waiting(false)), None, false)];
      conns := conns[conn := conns[conn].(channels := conns[conn].channels[localId := ref])];
      Say(ToOperator(conn, Some(ref), Open(localId)));
    }

    // _handle_conn behind the wait: the reader starts, or the channel is closed.
    method FinishForwardedOpen(ref: nat, granted: bool)
      requires Inv(Now()) && Enabled(Now(), if granted then Start(ref) else GiveUp(ref))
      modifies `chans
      ensures Did(if granted then Start(ref) else GiveUp(ref))
    {
      if granted {
        chans := chans[ref := chans[ref].(kind := Forwarded(Reading))];
      } else {
        MarkClosed(ref);
        chans := chans[ref := chans[ref].(kind := Forwarded(Ended))];
      }
    }

    // The end of a forwarded channel's reader loop: EOF and CLOSE.
    method EndForwarded(ref: nat)
      requires Inv(Now()) && Enabled(Now(), TcpEnd(ref))
      modifies `counter, `pending, `client, `conns, `chans, `sent
      ensures Did(TcpEnd(ref))
    {
      chans := chans[ref := chans[ref].(kind := Forwarded(Ended))];
      Tell1(ref, Eof(To(chans[ref])));
      if chans[ref].recipient.Some? {
        MarkClosed(ref);
        PopChannel(chans[ref].conn, chans[ref].localId);
        Tell1(ref, Close(To(chans[ref])));
      }
    }

    // A new SSHConnection.
    method AddConnection(conn: nat)
      requires conn !in conns
      modifies `conns
      ensures Did(Connect(conn))
    {
      conns := conns[conn := Connection(0, map[], None)];
    }

    // One turn of the connection loop of SSHConnection.
    method HandleOperator(conn: nat, got: FromOperator)
      requires Inv(Now()) && Enabled(Now(), Operator(conn, got))
      modifies `counter, `pending, `client, `conns, `chans, `sent
      ensures Did(Operator(conn, got))
    {
      match got {
        case ChannelOpen(supported, sender) => HandleChannelOpen(conn, supported, sender);
        case GotConfirmation(localId, sender) => HandleOpenConfirmation(conn, localId, sender);
        case GotFailure(localId) => HandleOpenFailure(conn, localId);
        case GotData(localId, data) => HandleData(conn, localId, None, data);
        case GotExtended(localId, code, data) => HandleData(conn, localId, Some(code), data);
        case GotEof(localId) => HandleEof(conn, localId);
        case GotClose(localId) => HandleClose(conn, localId);
        case GotRequest(localId, name, wantReply, payload) => HandleRequest(conn, localId, name, wantReply, payload);
      }
    }

    // One turn of the reader loop of RegisteredClient.
    method HandleClient(f: FromClient)
      requires Inv(Now())
      modifies `counter, `pending, `client, `conns, `chans, `sent
      ensures Did(Client(f))
    {
      match f {
        case Confirm(id, ok) => HandleOpenConfirm(id, ok);
        case SentData(id, chunks) => HandleRemoteChunks(id, None, chunks);
        case SentExtended(id, code, chunks) => HandleRemoteChunks(id, Some(code), chunks);
        case SentRequest(id, name, wantReply, payload) => HandleRemoteRequest(id, name, wantReply, payload);
        case SentEof(id) => HandleRemoteEof(id);
        case SentClose(id) => HandleRemoteClose(id);
      }
    }

    method Dispatch(e: Event)
      requires Inv(Now()) && Enabled(Now(), e)
      modifies `counter, `pending, `client, `conns, `chans, `sent
      ensures Did(e)
    {
      match e {
        case Connect(conn) => AddConnection(conn);
        case Operator(conn, got) => HandleOperator(conn, got);
        case Client(f) => HandleClient(f);
        case Wake(conn, timedOut) => FinishChannelOpen(conn, timedOut);
        case Accept(conn) => CreateForwardedChannel(conn);
        case GiveUp(ref) => FinishForwardedOpen(ref, false);
        case Start(ref) => FinishForwardedOpen(ref, true);
        case TcpData(ref, chunks) => SendChunks(ref, None, chunks);
        case TcpEnd(ref) => EndForwarded(ref);
      }
    }

    method Turn(e: Event)
      requires Valid() && Enabled(Now(), e)
      modifies this
      ensures Valid() && history == old(history) + [e] && Did(e)
    {
      ghost var s, log, before := Now(), sent, history;
      Dispatch(e);
      history := before + [e];
      Recorded(s, log, before, e);
    }

    lemma NextIsEnabled(all: seq<Event>, k: nat)
      requires Valid() && Possible(MUX, START, all) && k < |all| && history == all[..k]
      ensures Enabled(Now(), all[k])
    {
      EnabledBefore(MUX, START, all, k);
    }

    // Whatever happens, in whatever order it happens: the handlers run the state machine.
    method Serve(events: seq<Event>)
      requires Valid() && Possible(MUX, START, history + events)
      modifies this
      ensures Valid() && history == old(history) + events
    {
      ghost var all, done := history + events, |history|;
      for i := 0 to |events|
        invariant Valid() && history == all[..done + i]
      {
        NextIsEnabled(all, done + i);
        Turn(events[i]);
        assert all[..done + i] + [all[done + i]] == all[..done + i + 1];
      }
    }

    // client_closed for each of these.
    method CloseEach(ids: seq<nat>)
      requires Valid()
      modifies this
      ensures Valid() && history == old(history) + Closings(ids)
    {
      ghost var before := history;
      for i := 0 to |ids|
        invariant Valid() && history == before + Closings(ids)[..i]
      {
        Turn(Client(SentClose(ids[i])));
        assert Closings(ids)[..i + 1] == Closings(ids)[..i] + [Client(SentClose(ids[i]))];
      }
      assert Closings(ids)[..|ids|] == Closings(ids);
    }

    // RegisteredClient.close, called by the thread that reads the client's frames.
    method CloseClient()
      requires Valid()
      modifies this
      ensures Valid()
      ensures var ids := StoredIds(old(client), 0, old(counter));
        && history == old(history) + Closings(ids)
        && TornDown(old(Now()), ids, Now()) && client == map[]
        && sent == old(sent) + Goodbyes(old(Now()), ids)
    {
      TeardownBehind(START, history, Now(), sent);
      CloseEach(StoredIds(client, 0, counter));
    }

    method PassData(id: nat, code: Option<nat>, data: bytes, channel: SshChannels.SshChannel, schedule: Windows.Schedule)
      returns (done: bool)
      requires Valid() && (id in client ==> client[id] < |chans| && channel.recipient == chans[client[id]].recipient)
      modifies `sent, `history, channel
      ensures Valid()
      ensures done <==> !(id in client && old(channel.recipient).Some? && Stuck(data, old(channel.State()), schedule))
      ensures sent == old(sent) + DataOut(Now(), id, code, Windows.Sending(old(channel.State()), data, schedule).chunks)
    {
      DoneExactly(channel.State(), data, schedule);
      DataGoesOut(Now(), id, code, Windows.Sending(channel.State(), data, schedule).chunks);
      var outcome;
      ghost var chunks;
      outcome, chunks := HandleRemoteData(id, code, data, channel, schedule);
      done := outcome.Done?;
    }

    // One turn of that thread with data for a channel.  It goes on unless not all of the data can be
    // sent; then it closes all channels of the client.
    method ReceiveData(id: nat, code: Option<nat>, data: bytes, channel: SshChannels.SshChannel, schedule: Windows.Schedule)
      returns (alive: bool)
      requires Valid() && (id in client ==> client[id] < |chans| && channel.recipient == chans[client[id]].recipient)
      modifies this, channel
      ensures Valid()
      ensures alive <==> !(id in old(client) && old(channel.recipient).Some? && Stuck(data, old(channel.State()), schedule))
      ensures alive ==> Now() == old(Now())
      ensures !alive ==> TornDown(old(Now()), StoredIds(old(client), 0, old(counter)), Now()) && client == map[]
      ensures sent == old(sent)
        + DataOut(old(Now()), id, code, Windows.Sending(old(channel.State()), data, schedule).chunks)
        + if alive then [] else Goodbyes(old(Now()), StoredIds(old(client), 0, old(counter)))
    {
      alive := PassData(id, code, data, channel, schedule);
      if !alive { CloseClient(); }
    }

    // Everything a Relay has sent, at any time, whatever happened to it: no frame for a channel id
    // behind a CLOSE of it; no message but a refusal to a relayed channel's number behind a CLOSE
    // to it, when the operator gave the number once, and CHANNEL_FAILURE exactly when a request
    // came in for that id, unlisted, that wanted a reply; the data for an id, and for a number, is
    // what came in for it; a forwarded channel sends something behind a CLOSE exactly when it was
    // closed by the operator before its TCP connection ended.
    lemma LogIsSafe(id: nat, conn: nat, n: nat, ref: nat)
      requires Valid()
      ensures forall i, j :: 0 <= i < j < |sent| && ForId(sent[i], id) && sent[i].frame.ChannelClose? ==> !ForId(sent[j], id)
      ensures GivenOnce(history, conn, n) ==>
        forall i, j :: 0 <= i < j < |sent| && RelayedClose(history, conn, n, i) && ForNumber(sent[j], conn, n) ==> IsFailure(sent[j])
      ensures GivenOnce(history, conn, n) ==>
        forall i :: 0 <= i < |sent| && ForNumber(sent[i], conn, n) && sent[i].message.Close? ==>
          (FailureFollows(sent, conn, n, i) <==> StrayFollows(history, conn, n, StepOf(MUX, START, history, i)))
      ensures Gathered((o: Output) => DataForId(o, id), sent) == Taken(MUX, (s: State, e: Event) => DataForClientId(s, e, id), START, history)
      ensures Gathered((o: Output) => DataForNumber(o, conn, n), sent)
        == Taken(MUX, (s: State, e: Event) => DataForHolder(s, e, conn, n), START, history)
      ensures IsForwarded(Now(), ref) ==> (FollowsClose(sent, ref) <==> ClosedThenEnds(history, ref))
    {
      forall i, j | 0 <= i < j < |sent| && ForId(sent[i], id) && sent[i].frame.ChannelClose?
        ensures !ForId(sent[j], id)
      {
        CloseIsFinalForClient(history, id, i, j);
      }
      if GivenOnce(history, conn, n) {
        forall i, j | 0 <= i < j < |sent| && RelayedClose(history, conn, n, i) && ForNumber(sent[j], conn, n)
          ensures IsFailure(sent[j])
        {
          CloseIsFinalForOperator(history, conn, n, i, j);
        }
        forall i | 0 <= i < |sent| && ForNumber(sent[i], conn, n) && sent[i].message.Close?
          ensures FailureFollows(sent, conn, n, i) <==> StrayFollows(history, conn, n, StepOf(MUX, START, history, i))
        {
          FailureBehindClose(history, conn, n, i);
        }
      }
      DataReachesItsId(history, id);
      DataReachesItsNumber(history, conn, n);
      if IsForwarded(Now(), ref) { BehindAClose(history, ref); }
    }

    // And everything it had to send: for every id and every number, what the events for their channel
    // call for, each once and in order, and for data that came in the window granted again.
    lemma LogIsDue(id: nat, conn: nat, n: nat)
      requires Valid()
      ensures Gathered((o: Output) => RelayTranscript.FrameFor(o, id), sent)
        == Taken(MUX, (s: State, e: Event) => RelayTranscript.FramesDue(s, e, id), START, history)
      ensures Gathered((o: Output) => RelayTranscript.MessageFor(o, conn, n), sent)
        == Taken(MUX, (s: State, e: Event) => RelayTranscript.MessagesDue(s, e, conn, n), START, history)
      ensures Gathered((o: Output) => RelayTranscript.AmountFor(o, conn, n), sent)
        == Taken(MUX, (s: State, e: Event) => RelayTranscript.SizeArrived(s, e, conn, n), START, history)
    {
      RelayTranscript.FramesAreDue(history, id);
      RelayTranscript.MessagesAreDue(history, conn, n);
      RelayTranscript.EveryByteIsGranted(history, conn, n);
    }
  }
}
