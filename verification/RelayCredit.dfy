/** The window of an operator at the router: one connection of RelayMux, with an operator that sends
    no more than its credit, and a queue in each direction.  Every step of both together is a step of
    the ledger in CreditLedger, so credit is conserved by the router's own handlers.

    The request to open a channel and its answer travel at once; everything else is queued.  The other
    connections, the client and the TCP connections do what they like. */
module RelayCredit {
  import opened Wrappers
  import opened Bits
  import opened ChannelMessages
  import opened RelayMux
  import opened RelayRouting
  import opened RelayTraces
  import opened RelayTranscript
  import opened RelayChanges
  import opened Runs
  import L = CreditLedger

  datatype Joint = Joint(mux: State, peers: map<nat, L.Peer>, toRelay: seq<FromOperator>, toOperator: seq<Message>)

  datatype Act =
    | Asks(number: nat)
    | SendsData(number: nat, code: Option<nat>, data: bytes)
    | SendsEof(number: nat)
    | SendsRequest(number: nat, name: string, wantReply: bool, payload: bytes)
    | SendsClose(number: nat)
    | RelayReceives
    | OperatorReceives
    | Router(e: Event)

  const TOGETHER := Joint(START, map[], [], [])

  predicate Speaks(j: Joint, number: nat) {
    number in j.peers && !j.peers[number].sentClose
  }

  predicate CanAct(c: nat, j: Joint, a: Act) {
    match a
    case Asks(number) => number !in j.peers && Enabled(j.mux, Operator(c, ChannelOpen(true, number)))
    case SendsData(number, _, data) => Speaks(j, number) && |data| <= j.peers[number].credit
    case SendsEof(number) => Speaks(j, number)
    case SendsRequest(number, _, _, _) => Speaks(j, number)
    case SendsClose(number) => Speaks(j, number)
    case RelayReceives => j.toRelay != [] && Enabled(j.mux, Operator(c, j.toRelay[0]))
    case OperatorReceives => j.toOperator != []
    case Router(e) => Enabled(j.mux, e) && !(e.Operator? && e.conn == c)
  }

  function MessageTo(o: Output, c: nat): seq<Message> {
    if o.ToOperator? && o.conn == c then [o.message] else []
  }

  function MessagesTo(outputs: seq<Output>, c: nat): seq<Message> {
    Gathered((o: Output) => MessageTo(o, c), outputs)
  }

  // A confirmation tells the operator the relay's id, and how much it may send.
  function Confirmed(peers: map<nat, L.Peer>, messages: seq<Message>): map<nat, L.Peer> {
    if messages != [] && messages[0].OpenConfirmation?
    then peers[messages[0].recipient := L.Peer(messages[0].sender, messages[0].window, false, false)] else peers
  }

  // A step of the router.
  function Routed(c: nat, j: Joint, e: Event): Joint
    requires Enabled(j.mux, e)
  {
    var t := Handle(j.mux, e);
    var messages := MessagesTo(t.outputs, c);
    Joint(t.s, Confirmed(j.peers, messages), j.toRelay, j.toOperator + messages)
  }

  function Queued(j: Joint, got: FromOperator): Joint {
    j.(toRelay := j.toRelay + [got])
  }

  function Acts(c: nat, j: Joint, a: Act): Joint
    requires CanAct(c, j, a)
  {
    match a
    case Asks(number) => Routed(c, j, Operator(c, ChannelOpen(true, number)))
    case SendsData(number, code, data) =>
      var p := j.peers[number];
      Queued(j.(peers := j.peers[number := p.(credit := p.credit - |data|)]),
             if code.Some? then GotExtended(p.localId, code.value, data) else GotData(p.localId, data))
    case SendsEof(number) => Queued(j, GotEof(j.peers[number].localId))
    case SendsRequest(number, name, wantReply, payload) => Queued(j, GotRequest(j.peers[number].localId, name, wantReply, payload))
    case SendsClose(number) =>
      var p := j.peers[number];
      Queued(j.(peers := L.Settled(j.peers, number, p.(sentClose := true))), GotClose(p.localId))
    case RelayReceives => Routed(c, j.(toRelay := j.toRelay[1..]), Operator(c, j.toRelay[0]))
    case OperatorReceives => Hears(j.(toOperator := j.toOperator[1..]), j.toOperator[0])
    case Router(e) => Routed(c, j, e)
  }

  // What the operator does with a message.
  function Hears(j: Joint, m: Message): Joint {
    if m.Open? || m.recipient !in j.peers then j
    else
      var number, p := m.recipient, j.peers[m.recipient];
      match m
      case WindowAdjust(_, amount) => j.(peers := j.peers[number := p.(credit := p.credit + amount)])
      case Close(_) => j.(peers := L.Settled(j.peers, number, p.(gotClose := true)))
      case _ => j
  }

  function Both(c: nat): System<Joint, Act, Message> {
    System((j: Joint, a: Act) => CanAct(c, j, a),
           (j: Joint, a: Act) => Effect(if CanAct(c, j, a) then Acts(c, j, a) else j, []))
  }

  // -------------------------------------------------- the ledger's view

  // The operator's numbers of the listed channels.
  function Recipients(s: State, c: nat): map<nat, nat> {
    if c !in s.conns then map[]
    else map l | l in s.conns[c].channels && HasRecipient(s, s.conns[c].channels[l]) :: s.chans[s.conns[c].channels[l]].recipient.value
  }

  // The next id that a channel opened by the operator gets.
  function NextIdFor(s: State, c: nat): nat {
    if c !in s.conns then 0
    else if s.conns[c].opening.Some? && s.conns[c].opening.value.ref < |s.chans| then s.chans[s.conns[c].opening.value.ref].localId
    else s.conns[c].nextId
  }

  function PacketOf(got: FromOperator): seq<L.Packet> {
    match got
    case GotData(l, data) => [L.Parcel(l, |data|)]
    case GotExtended(l, _, data) => [L.Parcel(l, |data|)]
    case GotClose(l) => [L.Closing(l)]
    case _ => []
  }

  function Parcels(queue: seq<FromOperator>): seq<L.Packet> {
    Gathered((got: FromOperator) => PacketOf(got), queue)
  }

  function Credit(m: Message): seq<Message> {
    if m.WindowAdjust? || m.Close? then [m] else []
  }

  function Credits(messages: seq<Message>): seq<Message> {
    Gathered((m: Message) => Credit(m), messages)
  }

  function View(c: nat, j: Joint): L.State {
    L.State(NextIdFor(j.mux, c), Recipients(j.mux, c), j.peers, Parcels(j.toRelay), Credits(j.toOperator))
  }

  lemma ParcelsAppend(a: seq<FromOperator>, b: seq<FromOperator>)
    ensures Parcels(a + b) == Parcels(a) + Parcels(b)
  {
    GatheredAppend((got: FromOperator) => PacketOf(got), a, b);
  }

  lemma CreditsAppend(a: seq<Message>, b: seq<Message>)
    ensures Credits(a + b) == Credits(a) + Credits(b)
  {
    GatheredAppend((m: Message) => Credit(m), a, b);
  }

  // What a step of the router sends to the operator that matters for its credit.
  function CreditsTo(outputs: seq<Output>, c: nat): seq<Message> {
    Credits(MessagesTo(outputs, c))
  }

  lemma {:induction false} CreditsToTold(s: State, ref: nat, messages: seq<Message>, c: nat)
    requires ref < |s.chans|
    ensures CreditsTo(Tell(s, ref, messages), c) == if s.chans[ref].conn == c && s.chans[ref].recipient.Some? then Credits(messages) else []
  {
    var told := Tell(s, ref, messages);
    if messages != [] && s.chans[ref].recipient.Some? {
      CreditsToTold(s, ref, messages[1..], c);
      assert told[1..] == Tell(s, ref, messages[1..]);
      CreditsAppend(MessageTo(told[0], c), MessagesTo(told[1..], c));
      if s.chans[ref].conn == c { CreditsOfOne(messages[0]); }
    }
  }

  lemma CreditsOfOne(m: Message)
    ensures Credits([m]) == Credit(m) && Credits([]) == []
  {
    var one := [m];
    assert one[1..] == [];
    assert Credits(one) == Credit(one[0]) + Credits(one[1..]);
  }

  lemma MessagesToAppend(a: seq<Output>, b: seq<Output>, c: nat)
    ensures MessagesTo(a + b, c) == MessagesTo(a, c) + MessagesTo(b, c)
  {
    GatheredAppend((o: Output) => MessageTo(o, c), a, b);
  }

  lemma NoMessages(outputs: seq<Output>, c: nat)
    requires forall i :: 0 <= i < |outputs| ==> !outputs[i].ToOperator? || outputs[i].conn != c
    ensures MessagesTo(outputs, c) == []
  {
    NothingFound((o: Output) => MessageTo(o, c), outputs);
  }

  lemma {:induction false} CarriedIsNoCredit(n: nat, code: Option<nat>, chunks: seq<bytes>)
    ensures Credits(Carried(n, code, chunks)) == []
  {
    if chunks != [] {
      CarriedIsNoCredit(n, code, chunks[1..]);
      assert Carried(n, code, chunks)[1..] == Carried(n, code, chunks[1..]);
    }
  }

  // ------------------------------------------------ one step of the router

  // The operator confirms no forwarded channel, so none of these has a number, and a stored channel
  // that has one is listed.
  ghost predicate Tidy(s: State, c: nat) {
    && (forall ref :: 0 <= ref < |s.chans| && s.chans[ref].conn == c && s.chans[ref].kind.Forwarded? ==> s.chans[ref].recipient.None?)
    && (forall id :: id in s.client && HasRecipient(s, s.client[id]) && s.chans[s.client[id]].conn == c ==> Listed(s, s.client[id]))
  }

  predicate Decent(e: Event, c: nat) {
    !(e.Operator? && e.conn == c && (e.got.GotConfirmation? || e.got.GotFailure?))
  }

  // Where a stored channel comes from.
  lemma StoredBefore(s: State, e: Event, id: nat)
    requires Inv(s) && Enabled(s, e) && id in Handle(s, e).s.client
    ensures (id in s.client && Handle(s, e).s.client[id] == s.client[id]) || Handle(s, e).s.client[id] == |s.chans|
  {
    if !Opens(s, e) { OthersShrink(s, e); }
  }

  lemma OpeningIsRelayed(s: State, conn: nat)
    requires Inv(s) && conn in s.conns && s.conns[conn].opening.Some?
    ensures var ref := s.conns[conn].opening.value.ref;
      ref < |s.chans| && s.chans[ref].kind.Remote? && s.chans[ref].conn == conn && s.chans[ref].recipient.None?
      && s.chans[ref].localId !in s.conns[conn].channels && s.chans[ref].localId < s.conns[conn].nextId
  {
    assert OpeningAt(s, conn);
    assert NumberedAt(s, s.conns[conn].opening.value.ref);
  }

  lemma ForwardedStayUnnumbered(s: State, e: Event, c: nat, ref: nat)
    requires Inv(s) && Enabled(s, e) && Tidy(s, c) && Decent(e, c)
    requires var t := Handle(s, e).s; ref < |t.chans| && t.chans[ref].conn == c && t.chans[ref].kind.Forwarded?
    ensures Handle(s, e).s.chans[ref].recipient.None?
  {
    NewChannels(s, e);
    if ref < |s.chans| {
      ChannelChanges(s, e, ref);
      if Reaches(s, e, ref) { ReachedAs(s, e, ref); }
      if e.Wake? { OpeningIsRelayed(s, e.conn); }
    }
  }

  lemma StoredStayListed(s: State, e: Event, c: nat, id: nat)
    requires Inv(s) && Enabled(s, e) && Tidy(s, c) && Decent(e, c)
    requires var t := Handle(s, e).s; id in t.client && HasRecipient(t, t.client[id]) && t.chans[t.client[id]].conn == c
    ensures Listed(Handle(s, e).s, Handle(s, e).s.client[id])
  {
    var t := Handle(s, e).s;
    var ref := t.client[id];
    NewChannels(s, e);
    StoredBefore(s, e, id);
    if ref < |s.chans| {
      HandleKeeps(s, e);
      StoredAs(t, id);
      StoredAs(s, id);
      ChannelChanges(s, e, ref);
      ListingChanges(s, e, ref);
      StoringChanges(s, e, id);
      if Reaches(s, e, ref) { ReachedAs(s, e, ref); }
    }
  }

  lemma TidyStep(s: State, e: Event, c: nat)
    requires Inv(s) && Enabled(s, e) && Tidy(s, c) && Decent(e, c)
    ensures Tidy(Handle(s, e).s, c)
  {
    var t := Handle(s, e).s;
    forall ref | 0 <= ref < |t.chans| && t.chans[ref].conn == c && t.chans[ref].kind.Forwarded?
      ensures t.chans[ref].recipient.None?
    {
      ForwardedStayUnnumbered(s, e, c, ref);
    }
    forall id | id in t.client && HasRecipient(t, t.client[id]) && t.chans[t.client[id]].conn == c
      ensures Listed(t, t.client[id])
    {
      StoredStayListed(s, e, c, id);
    }
  }

  // The channel that the client's CHANNEL_CLOSE takes away from the operator.
  predicate ClosesOurs(s: State, e: Event, c: nat) {
    && e.Client? && e.frame.SentClose? && e.frame.id in s.client && HasRecipient(s, s.client[e.frame.id])
    && s.chans[s.client[e.frame.id]].conn == c
  }

  predicate GrantsOurs(s: State, e: Event, c: nat) {
    && e.Wake? && e.conn == c && c in s.conns && s.conns[c].opening.Some? && s.conns[c].opening.value.ref < |s.chans|
    && IsGranted(s, e, s.conns[c].opening.value.ref)
  }

  // What a step does to the numbers of the listed channels ...
  function RecipientsNext(s: State, e: Event, c: nat): map<nat, nat> {
    var r := Recipients(s, c);
    if GrantsOurs(s, e, c) then r[s.chans[s.conns[c].opening.value.ref].localId := s.conns[c].opening.value.sender]
    else if e.Operator? && e.conn == c && e.got.GotClose? then r - {e.got.localId}
    else if ClosesOurs(s, e, c) then r - {s.chans[s.client[e.frame.id]].localId}
    else r
  }

  // ... and what it sends that matters for the credit.
  function CreditsNext(s: State, e: Event, c: nat): seq<Message> {
    var r := Recipients(s, c);
    if e.Operator? && e.conn == c && (e.got.GotData? || e.got.GotExtended?) then
      Adjustment(if e.got.localId in r then Some(r[e.got.localId]) else None, |e.got.data|)
    else if e.Operator? && e.conn == c && e.got.GotClose? then
      if e.got.localId in r then [Close(r[e.got.localId])] else []
    else if ClosesOurs(s, e, c) then [Close(s.chans[s.client[e.frame.id]].recipient.value)]
    else []
  }

  // A number in the map is that of a listed channel.
  lemma RecipientAt(s: State, c: nat, ref: nat)
    requires Inv(s) && ref < |s.chans| && s.chans[ref].conn == c
    ensures Listed(s, ref) && HasRecipient(s, ref) <==>
      c in s.conns && s.chans[ref].localId in Recipients(s, c) && s.conns[c].channels[s.chans[ref].localId] == ref
    ensures Listed(s, ref) && HasRecipient(s, ref) ==> Recipients(s, c)[s.chans[ref].localId] == s.chans[ref].recipient.value
  {}

  lemma RecipientOf(s: State, c: nat, l: nat)
    requires Inv(s) && l in Recipients(s, c)
    ensures var ref := s.conns[c].channels[l];
      ref < |s.chans| && s.chans[ref].conn == c && s.chans[ref].localId == l && Listed(s, ref) && HasRecipient(s, ref)
  {
    ListedAs(s, c, l);
  }

  // What was listed and what is listed, for one id.
  lemma RecipientStep(s: State, e: Event, c: nat, ref: nat)
    requires Inv(s) && Enabled(s, e) && Tidy(s, c) && Decent(e, c) && ref < |s.chans| && s.chans[ref].conn == c
    ensures var t := Handle(s, e).s;
      && ref < |t.chans| && t.chans[ref].conn == c && t.chans[ref].localId == s.chans[ref].localId
      && (Listed(t, ref) && HasRecipient(t, ref) <==>
            (GrantsOurs(s, e, c) && s.conns[c].opening.value.ref == ref)
            || (Listed(s, ref) && HasRecipient(s, ref)
                && !(e.Operator? && e.conn == c && e.got.GotClose? && e.got.localId == s.chans[ref].localId)
                && !(ClosesOurs(s, e, c) && s.client[e.frame.id] == ref)))
      && (Listed(t, ref) && HasRecipient(t, ref) ==>
            t.chans[ref].recipient.value
            == if GrantsOurs(s, e, c) && s.conns[c].opening.value.ref == ref then s.conns[c].opening.value.sender else s.chans[ref].recipient.value)
  {
    ChannelChanges(s, e, ref);
    ListingChanges(s, e, ref);
    if Reaches(s, e, ref) { ReachedAs(s, e, ref); }
    if e.Wake? { OpeningIsRelayed(s, e.conn); }
  }

  lemma InTheNext(s: State, e: Event, c: nat, l: nat)
    requires Inv(s) && Enabled(s, e) && Tidy(s, c) && Decent(e, c) && l in Recipients(Handle(s, e).s, c)
    ensures l in RecipientsNext(s, e, c) && RecipientsNext(s, e, c)[l] == Recipients(Handle(s, e).s, c)[l]
  {
    var t := Handle(s, e).s;
    HandleKeeps(s, e);
    RecipientOf(t, c, l);
    var ref := t.conns[c].channels[l];
    NewChannels(s, e);
    assert ref < |s.chans|;
    ConnOf(s, e, ref);
    RecipientStep(s, e, c, ref);
    RecipientAt(t, c, ref);
    NextOf(s, e, c, ref);
  }

  lemma ConnOf(s: State, e: Event, ref: nat)
    requires Inv(s) && Enabled(s, e) && ref < |s.chans|
    ensures ref < |Handle(s, e).s.chans| && Handle(s, e).s.chans[ref].conn == s.chans[ref].conn && Handle(s, e).s.chans[ref].localId == s.chans[ref].localId
  {
    ChannelChanges(s, e, ref);
  }

  // The map, for the id of one channel.
  lemma NextOf(s: State, e: Event, c: nat, ref: nat)
    requires Inv(s) && Enabled(s, e) && ref < |s.chans| && s.chans[ref].conn == c
    requires (GrantsOurs(s, e, c) && s.conns[c].opening.value.ref == ref)
             || (Listed(s, ref) && HasRecipient(s, ref)
                 && !(e.Operator? && e.conn == c && e.got.GotClose? && e.got.localId == s.chans[ref].localId)
                 && !(ClosesOurs(s, e, c) && s.client[e.frame.id] == ref))
    ensures s.chans[ref].localId in RecipientsNext(s, e, c)
    ensures RecipientsNext(s, e, c)[s.chans[ref].localId]
      == if GrantsOurs(s, e, c) && s.conns[c].opening.value.ref == ref then s.conns[c].opening.value.sender else s.chans[ref].recipient.value
  {
    RecipientAt(s, c, ref);
    if GrantsOurs(s, e, c) {
      OneLocalId(s, ref, s.conns[c].opening.value.ref);
      OpeningIsRelayed(s, c);
    } else if ClosesOurs(s, e, c) {
      OneLocalId(s, ref, s.client[e.frame.id]);
    }
  }

  lemma FromTheNext(s: State, e: Event, c: nat, l: nat)
    requires Inv(s) && Enabled(s, e) && Tidy(s, c) && Decent(e, c) && l in RecipientsNext(s, e, c)
    ensures l in Recipients(Handle(s, e).s, c)
  {
    var t := Handle(s, e).s;
    HandleKeeps(s, e);
    if GrantsOurs(s, e, c) && l == s.chans[s.conns[c].opening.value.ref].localId {
      OpeningIsRelayed(s, c);
      RecipientStep(s, e, c, s.conns[c].opening.value.ref);
      RecipientAt(t, c, s.conns[c].opening.value.ref);
    } else {
      RecipientOf(s, c, l);
      RecipientStep(s, e, c, s.conns[c].channels[l]);
      RecipientAt(t, c, s.conns[c].channels[l]);
    }
  }

  lemma RecipientsStep(s: State, e: Event, c: nat)
    requires Inv(s) && Enabled(s, e) && Tidy(s, c) && Decent(e, c)
    ensures Recipients(Handle(s, e).s, c) == RecipientsNext(s, e, c)
  {
    var t := Handle(s, e).s;
    forall l | l in Recipients(t, c)
      ensures l in RecipientsNext(s, e, c) && RecipientsNext(s, e, c)[l] == Recipients(t, c)[l]
    {
      InTheNext(s, e, c, l);
    }
    forall l | l in RecipientsNext(s, e, c)
      ensures l in Recipients(t, c)
    {
      FromTheNext(s, e, c, l);
    }
  }

  // ----------------------------------------------------- what it sends

  lemma CreditsOfAnswer(ch: Channel, got: FromOperator)
    ensures Credits(AnswerTo(ch, got))
      == match got
         case GotData(_, data) => Adjustment(ch.recipient, |data|)
         case GotExtended(_, _, data) => Adjustment(ch.recipient, |data|)
         case GotClose(_) => [Close(To(ch))]
         case _ => []
  {
    var answer := AnswerTo(ch, got);
    if answer != [] { CreditsOfOne(answer[0]); } else { CreditsOfOne(Close(0)); }
  }

  lemma CreditsBehind(first: seq<Output>, told: seq<Output>, c: nat)
    requires forall i :: 0 <= i < |first| ==> !first[i].ToOperator?
    ensures CreditsTo(first + told, c) == CreditsTo(told, c)
  {
    MessagesToAppend(first, told, c);
    NoMessages(first, c);
    assert [] + MessagesTo(told, c) == MessagesTo(told, c);
  }

  lemma ListedCredits(s: State, conn: nat, got: FromOperator, c: nat)
    requires Inv(s) && Enabled(s, Operator(conn, got)) && !got.ChannelOpen? && got.localId in s.conns[conn].channels
    ensures CreditsTo(OnChannel(s, s.conns[conn].channels[got.localId], got).outputs, c) == CreditsNext(s, Operator(conn, got), c)
  {
    ListedAs(s, conn, got.localId);
    var ref := s.conns[conn].channels[got.localId];
    var first := ChannelAnswers(s, ref, got);
    CreditsBehind(first, Tell(s, ref, AnswerTo(s.chans[ref], got)), c);
    CreditsToTold(s, ref, AnswerTo(s.chans[ref], got), c);
    CreditsOfAnswer(s.chans[ref], got);
    RecipientAt(s, conn, ref);
  }

  lemma OneCredit(o: Output, c: nat)
    ensures CreditsTo([o], c) == Credits(MessageTo(o, c)) && CreditsTo([], c) == []
    ensures MessagesTo([o], c) == MessageTo(o, c)
  {
    var one := [o];
    assert one[1..] == [];
    assert MessagesTo(one, c) == MessageTo(one[0], c) + MessagesTo(one[1..], c);
    assert MessageTo(o, c) + [] == MessageTo(o, c);
    CreditsOfOne(Close(0));
  }

  lemma QuietOutput(o: Output, c: nat)
    requires o.ToOperator? ==> !o.message.WindowAdjust? && !o.message.Close?
    ensures CreditsTo([o], c) == []
  {
    OneCredit(o, c);
    CreditsOfOne(if o.ToOperator? then o.message else Eof(0));
  }

  lemma ClientCredits(s: State, f: FromClient, c: nat)
    requires Inv(s)
    ensures CreditsTo(OnClient(s, f).outputs, c) == CreditsNext(s, Client(f), c)
  {
    OneCredit(ToSocket(0, []), c);
    if !f.Confirm? && f.id in s.client {
      var ref := s.client[f.id];
      ClientAnswers(s, f);
      var n := To(s.chans[ref]);
      CreditsToTold(s, ref, PassedDue(f, n), c);
      match f {
        case SentData(_, chunks) => CarriedIsNoCredit(n, None, chunks);
        case SentExtended(_, code, chunks) => CarriedIsNoCredit(n, Some(code), chunks);
        case Confirm(_, _) =>
        case SentRequest(_, name, wantReply, payload) => CreditsOfOne(Request(n, name, wantReply, payload));
        case SentEof(_) => CreditsOfOne(Eof(n));
        case SentClose(_) => CreditsOfOne(Close(n));
      }
    }
  }

  lemma TcpCredits(s: State, e: Event, c: nat)
    requires Inv(s) && Enabled(s, e) && Tidy(s, c) && (e.TcpData? || e.TcpEnd?)
    ensures CreditsTo(Handle(s, e).outputs, c) == []
  {
    OneCredit(ToSocket(0, []), c);
    var n := To(s.chans[e.ref]);
    if e.TcpData? {
      CarriedIs(n, None, e.chunks);
      CreditsToTold(s, e.ref, Carried(n, None, e.chunks), c);
      CarriedIsNoCredit(n, None, e.chunks);
    } else {
      CreditsToTold(s, e.ref, [Eof(n), Close(n)], c);
    }
  }

  lemma CreditsStep(s: State, e: Event, c: nat)
    requires Inv(s) && Enabled(s, e) && Tidy(s, c)
    ensures CreditsTo(Handle(s, e).outputs, c) == CreditsNext(s, e, c)
  {
    OneCredit(ToSocket(0, []), c);
    match e {
      case Operator(conn, got) =>
        if !got.ChannelOpen? && got.localId in s.conns[conn].channels {
          ListedAs(s, conn, got.localId);
          ListedCredits(s, conn, got, c);
        } else {
          UnlistedCredits(s, conn, got, c);
        }
      case Client(f) => ClientCredits(s, f, c);
      case Wake(conn, _) =>
        OpeningAs(s, conn);
        QuietOutput(Handle(s, e).outputs[0], c);
      case Accept(_) => QuietOutput(Handle(s, e).outputs[0], c);
      case TcpData(_, _) => TcpCredits(s, e, c);
      case TcpEnd(_) => TcpCredits(s, e, c);
      case _ =>
    }
  }

  lemma UnlistedCredits(s: State, conn: nat, got: FromOperator, c: nat)
    requires Inv(s) && Enabled(s, Operator(conn, got)) && (got.ChannelOpen? || got.localId !in s.conns[conn].channels)
    ensures CreditsTo(OnOperator(s, conn, got).outputs, c) == CreditsNext(s, Operator(conn, got), c)
  {
    var outputs := OnOperator(s, conn, got).outputs;
    OneCredit(ToSocket(0, []), c);
    if outputs != [] { QuietOutput(outputs[0], c); }
  }

  // Ids are taken upwards; a channel gets its own when it is asked for.
  lemma NextIdStep(s: State, e: Event, c: nat)
    requires Inv(s) && Enabled(s, e)
    ensures NextIdFor(Handle(s, e).s, c) >= NextIdFor(s, c)
    ensures GrantsOurs(s, e, c) ==>
      NextIdFor(s, c) == s.chans[s.conns[c].opening.value.ref].localId && NextIdFor(Handle(s, e).s, c) > NextIdFor(s, c)
  {
    NewChannels(s, e);
    if c in s.conns && s.conns[c].opening.Some? {
      OpeningIsRelayed(s, c);
      ConnOf(s, e, s.conns[c].opening.value.ref);
    }
    if e.Wake? { OpeningIsRelayed(s, e.conn); }
    if !Opens(s, e) { OthersShrink(s, e); }
  }

  // -------------------------------------------------------- the simulation

  // The operator sends nothing but this.
  predicate Sent(got: FromOperator) {
    got.GotData? || got.GotExtended? || got.GotEof? || got.GotRequest? || got.GotClose?
  }

  ghost predicate JointInv(c: nat, j: Joint) {
    && Inv(j.mux) && Tidy(j.mux, c)
    && (forall i :: 0 <= i < |j.toRelay| ==> Sent(j.toRelay[i]))
    && (c in j.mux.conns && j.mux.conns[c].opening.Some? ==> j.mux.conns[c].opening.value.sender !in j.peers)
  }

  // What the router's step is in the ledger, when the operator's message is not taken off the queue.
  function InLedger(s: State, e: Event, c: nat): seq<L.Action>
    requires Inv(s) && Enabled(s, e)
  {
    NextIdStep(s, e, c);
    var skip := NextIdFor(Handle(s, e).s, c) - NextIdFor(s, c);
    if GrantsOurs(s, e, c) then [L.OpenChannel(s.conns[c].opening.value.sender, skip - 1)]
    else if ClosesOurs(s, e, c) then [L.SkipIds(skip), L.RemoteClose(s.chans[s.client[e.frame.id]].localId)]
    else [L.SkipIds(skip)]
  }

  // These actions take one state of the ledger to the other.
  ghost predicate Leads(s: L.State, actions: seq<L.Action>, t: L.State) {
    Possible(L.LEDGER, s, actions) && After(L.LEDGER, s, actions).s == t
  }

  lemma LeadsOn(s: L.State, a: seq<L.Action>, t: L.State, b: seq<L.Action>, u: L.State)
    requires Leads(s, a, t) && Leads(t, b, u)
    ensures Leads(s, a + b, u)
  {
    RunAppend(L.LEDGER, s, a, b);
  }

  lemma LeadsOnce(s: L.State, a: L.Action)
    requires L.Enabled(s, a)
    ensures Leads(s, [a], L.Next(s, a))
  {
    StepFirst(L.LEDGER, s, a, []);
    assert [a] + [] == [a];
  }

  lemma LeadsTwice(s: L.State, a: L.Action, b: L.Action)
    requires L.Enabled(s, a) && L.Enabled(L.Next(s, a), b)
    ensures Leads(s, [a, b], L.Next(L.Next(s, a), b))
  {
    LeadsOnce(s, a);
    LeadsOnce(L.Next(s, a), b);
    LeadsOn(s, [a], L.Next(s, a), [b], L.Next(L.Next(s, a), b));
    assert [a] + [b] == [a, b];
  }

  // The client closes a channel, after some ids have been taken.
  lemma SkipThenClose(s: L.State, skip: nat, l: nat, n: nat)
    requires l in s.recipients && s.recipients[l] == n
    ensures Leads(s, [L.SkipIds(skip), L.RemoteClose(l)],
                  L.State(s.nextId + skip, s.recipients - {l}, s.peers, s.toRelay, s.toOperator + [Close(n)]))
  {
    LeadsTwice(s, L.SkipIds(skip), L.RemoteClose(l));
  }

  // A confirmation is sent exactly when an open is granted.
  lemma OnlyGrantsConfirm(s: State, e: Event, i: nat)
    requires Inv(s) && Enabled(s, e) && i < |Handle(s, e).outputs|
    requires Handle(s, e).outputs[i].ToOperator? && Handle(s, e).outputs[i].message.OpenConfirmation?
    ensures e.Wake? && GrantsOurs(s, e, Handle(s, e).outputs[i].conn)
  {
    match e {
      case Operator(conn, got) =>
        if !got.ChannelOpen? && got.localId in s.conns[conn].channels { ListedAs(s, conn, got.localId); }
      case Client(f) =>
        if !f.Confirm? && f.id in s.client {
          ClientAnswers(s, f);
          PassedConfirmsNothing(f, To(s.chans[s.client[f.id]]), i);
        }
      case Wake(conn, _) => OpeningAs(s, conn);
      case TcpData(ref, chunks) =>
        CarriedIs(To(s.chans[ref]), None, chunks);
        CarriedConfirmsNothing(To(s.chans[ref]), None, chunks, i);
      case _ =>
    }
  }

  lemma {:induction false} CarriedConfirmsNothing(n: nat, code: Option<nat>, chunks: seq<bytes>, i: nat)
    requires i < |Carried(n, code, chunks)|
    ensures !Carried(n, code, chunks)[i].OpenConfirmation?
  {
    if i > 0 { CarriedConfirmsNothing(n, code, chunks[1..], i - 1); }
  }

  lemma PassedConfirmsNothing(f: FromClient, n: nat, i: nat)
    requires i < |PassedDue(f, n)|
    ensures !PassedDue(f, n)[i].OpenConfirmation?
  {
    match f {
      case SentData(_, chunks) => CarriedConfirmsNothing(n, None, chunks, i);
      case SentExtended(_, code, chunks) => CarriedConfirmsNothing(n, Some(code), chunks, i);
      case _ =>
    }
  }

  lemma {:induction false} SentByOne(outputs: seq<Output>, c: nat) returns (i: nat)
    requires MessagesTo(outputs, c) != []
    ensures i < |outputs| && outputs[i].ToOperator? && outputs[i].conn == c && outputs[i].message == MessagesTo(outputs, c)[0]
  {
    if MessageTo(outputs[0], c) == [] {
      i := SentByOne(outputs[1..], c);
      i := i + 1;
    } else {
      i := 0;
    }
  }

  lemma PeersStep(c: nat, j: Joint, e: Event)
    requires Inv(j.mux) && Enabled(j.mux, e)
    ensures Routed(c, j, e).peers
      == if GrantsOurs(j.mux, e, c)
         then j.peers[j.mux.conns[c].opening.value.sender := L.Peer(NextIdFor(j.mux, c), CHANNEL_WINDOW, false, false)] else j.peers
  {
    var outputs := Handle(j.mux, e).outputs;
    if GrantsOurs(j.mux, e, c) {
      OneCredit(outputs[0], c);
    } else if MessagesTo(outputs, c) != [] {
      var i := SentByOne(outputs, c);
      if outputs[i].message.OpenConfirmation? { OnlyGrantsConfirm(j.mux, e, i); }
    }
  }

  lemma QueueStep(c: nat, j: Joint, e: Event)
    requires Inv(j.mux) && Enabled(j.mux, e) && Tidy(j.mux, c)
    ensures Credits(Routed(c, j, e).toOperator) == Credits(j.toOperator) + CreditsNext(j.mux, e, c)
  {
    CreditsAppend(j.toOperator, MessagesTo(Handle(j.mux, e).outputs, c));
    CreditsStep(j.mux, e, c);
  }

  lemma OurCloseIsListed(s: State, e: Event, c: nat)
    requires Inv(s) && Tidy(s, c) && ClosesOurs(s, e, c)
    ensures var ref := s.client[e.frame.id];
      s.chans[ref].localId in Recipients(s, c) && Recipients(s, c)[s.chans[ref].localId] == s.chans[ref].recipient.value
  {
    RecipientAt(s, c, s.client[e.frame.id]);
  }

  // A step that is not about data or CLOSE of the operator.
  predicate Apart(e: Event, c: nat) {
    Decent(e, c) && !(e.Operator? && e.conn == c && (e.got.GotData? || e.got.GotExtended? || e.got.GotClose?))
  }

  lemma RoutedView(c: nat, j: Joint, e: Event)
    requires JointInv(c, j) && Enabled(j.mux, e) && Decent(e, c)
    ensures View(c, Routed(c, j, e))
      == L.State(NextIdFor(Handle(j.mux, e).s, c), RecipientsNext(j.mux, e, c), Routed(c, j, e).peers, Parcels(j.toRelay),
                 Credits(j.toOperator) + CreditsNext(j.mux, e, c))
  {
    RecipientsStep(j.mux, e, c);
    QueueStep(c, j, e);
  }

  lemma CloseLeads(c: nat, j: Joint, e: Event, skip: nat)
    requires JointInv(c, j) && Enabled(j.mux, e) && ClosesOurs(j.mux, e, c)
    requires skip == NextIdFor(Handle(j.mux, e).s, c) - NextIdFor(j.mux, c)
    ensures Leads(View(c, j), [L.SkipIds(skip), L.RemoteClose(j.mux.chans[j.mux.client[e.frame.id]].localId)], View(c, Routed(c, j, e)))
  {
    var ref := j.mux.client[e.frame.id];
    RoutedView(c, j, e);
    PeersStep(c, j, e);
    OurCloseIsListed(j.mux, e, c);
    SkipThenClose(View(c, j), skip, j.mux.chans[ref].localId, j.mux.chans[ref].recipient.value);
  }

  lemma GrantLeads(c: nat, j: Joint, e: Event, skip: nat)
    requires JointInv(c, j) && Enabled(j.mux, e) && GrantsOurs(j.mux, e, c)
    requires NextIdFor(Handle(j.mux, e).s, c) == NextIdFor(j.mux, c) + 1 + skip
    ensures Leads(View(c, j), [L.OpenChannel(j.mux.conns[c].opening.value.sender, skip)], View(c, Routed(c, j, e)))
  {
    var s := View(c, j);
    NextIdStep(j.mux, e, c);
    RoutedView(c, j, e);
    PeersStep(c, j, e);
    assert s.toOperator + [] == s.toOperator;
    LeadsOnce(s, L.OpenChannel(j.mux.conns[c].opening.value.sender, skip));
  }

  lemma QuietLeads(c: nat, j: Joint, e: Event, skip: nat)
    requires JointInv(c, j) && Enabled(j.mux, e) && Apart(e, c) && !GrantsOurs(j.mux, e, c) && !ClosesOurs(j.mux, e, c)
    requires NextIdFor(Handle(j.mux, e).s, c) == NextIdFor(j.mux, c) + skip
    ensures Leads(View(c, j), [L.SkipIds(skip)], View(c, Routed(c, j, e)))
  {
    var s := View(c, j);
    RoutedView(c, j, e);
    PeersStep(c, j, e);
    assert s.toOperator + [] == s.toOperator;
    LeadsOnce(s, L.SkipIds(skip));
  }

  lemma RouterLeads(c: nat, j: Joint, e: Event)
    requires JointInv(c, j) && Enabled(j.mux, e) && Apart(e, c)
    ensures Leads(View(c, j), InLedger(j.mux, e, c), View(c, Routed(c, j, e)))
  {
    NextIdStep(j.mux, e, c);
    var skip := NextIdFor(Handle(j.mux, e).s, c) - NextIdFor(j.mux, c);
    if GrantsOurs(j.mux, e, c) {
      GrantLeads(c, j, e, skip - 1);
    } else if ClosesOurs(j.mux, e, c) {
      CloseLeads(c, j, e, skip);
    } else {
      QuietLeads(c, j, e, skip);
    }
  }

  // Data and CLOSE of the operator: the relay's step in the ledger is the router's.
  lemma ReceiveLeads(c: nat, j: Joint)
    requires JointInv(c, j) && CanAct(c, j, RelayReceives) && PacketOf(j.toRelay[0]) != []
    ensures Leads(View(c, j), [L.SkipIds(NextIdFor(Acts(c, j, RelayReceives).mux, c) - NextIdFor(j.mux, c)), L.RelayReceives], View(c, Acts(c, j, RelayReceives)))
  {
    var got, rest := j.toRelay[0], j.(toRelay := j.toRelay[1..]);
    var e, s := Operator(c, got), View(c, j);
    NextIdStep(j.mux, e, c);
    var skip := NextIdFor(Handle(j.mux, e).s, c) - NextIdFor(j.mux, c);
    RoutedView(c, rest, e);
    PeersStep(c, rest, e);
    var m := L.Next(s, L.SkipIds(skip));
    assert s.toRelay == PacketOf(got) + Parcels(rest.toRelay);
    assert s.toRelay[1..] == Parcels(rest.toRelay);
    ReceivedNext(c, j, m);
    LeadsTwice(s, L.SkipIds(skip), L.RelayReceives);
  }

  lemma ReceivedNext(c: nat, j: Joint, m: L.State)
    requires JointInv(c, j) && CanAct(c, j, RelayReceives) && PacketOf(j.toRelay[0]) != []
    requires m == View(c, j).(nextId := m.nextId) && m.toRelay == PacketOf(j.toRelay[0]) + Parcels(j.toRelay[1..])
    ensures L.Enabled(m, L.RelayReceives)
    ensures L.Next(m, L.RelayReceives)
      == L.State(m.nextId, RecipientsNext(j.mux, Operator(c, j.toRelay[0]), c), j.peers, Parcels(j.toRelay[1..]),
                 Credits(j.toOperator) + CreditsNext(j.mux, Operator(c, j.toRelay[0]), c))
  {
    assert m.toRelay[1..] == Parcels(j.toRelay[1..]);
    var r := Recipients(j.mux, c);
    assert j.toRelay[0].GotClose? && j.toRelay[0].localId !in r ==> r - {j.toRelay[0].localId} == r;
    assert Credits(j.toOperator) + [] == Credits(j.toOperator);
  }

  lemma HearLeads(c: nat, j: Joint)
    requires j.toOperator != []
    ensures Leads(View(c, j), if Credit(j.toOperator[0]) == [] then [] else [L.OperatorReceives], View(c, Acts(c, j, OperatorReceives)))
  {
    var s, m := View(c, j), j.toOperator[0];
    assert s.toOperator == Credit(m) + Credits(j.toOperator[1..]);
    if Credit(m) != [] {
      assert s.toOperator[1..] == Credits(j.toOperator[1..]);
      LeadsOnce(s, L.OperatorReceives);
    } else {
      assert [] + Credits(j.toOperator[1..]) == Credits(j.toOperator[1..]);
    }
  }

  lemma QueuedView(c: nat, j: Joint, got: FromOperator)
    ensures View(c, Queued(j, got)) == View(c, j).(toRelay := Parcels(j.toRelay) + PacketOf(got))
  {
    ParcelsAppend(j.toRelay, [got]);
    var one := [got];
    assert one[1..] == [];
    assert Parcels(one) == PacketOf(one[0]) + Parcels(one[1..]);
    assert PacketOf(got) + [] == PacketOf(got);
  }

  lemma SendLeads(c: nat, j: Joint, a: Act)
    requires CanAct(c, j, a) && (a.SendsData? || a.SendsEof? || a.SendsRequest? || a.SendsClose?)
    ensures Leads(View(c, j), if a.SendsData? then [L.SendData(a.number, |a.data|)] else if a.SendsClose? then [L.SendClose(a.number)] else [],
                  View(c, Acts(c, j, a)))
  {
    var s, p := View(c, j), j.peers[a.number];
    match a {
      case SendsData(number, code, data) =>
        QueuedView(c, j.(peers := j.peers[number := p.(credit := p.credit - |data|)]),
                   if code.Some? then GotExtended(p.localId, code.value, data) else GotData(p.localId, data));
        LeadsOnce(s, L.SendData(number, |data|));
      case SendsEof(_) =>
        QueuedView(c, j, GotEof(p.localId));
        assert s.toRelay + [] == s.toRelay;
      case SendsRequest(_, name, wantReply, payload) =>
        QueuedView(c, j, GotRequest(p.localId, name, wantReply, payload));
        assert s.toRelay + [] == s.toRelay;
      case SendsClose(number) =>
        QueuedView(c, j.(peers := L.Settled(j.peers, number, p.(sentClose := true))), GotClose(p.localId));
        LeadsOnce(s, L.SendClose(number));
    }
  }

  // Every step of both together is some steps of the ledger.
  lemma ActLeads(c: nat, j: Joint, a: Act) returns (actions: seq<L.Action>)
    requires JointInv(c, j) && CanAct(c, j, a)
    ensures Leads(View(c, j), actions, View(c, Acts(c, j, a)))
  {
    match a {
      case Asks(number) =>
        RouterLeads(c, j, Operator(c, ChannelOpen(true, number)));
        actions := InLedger(j.mux, Operator(c, ChannelOpen(true, number)), c);
      case RelayReceives =>
        if PacketOf(j.toRelay[0]) != [] {
          ReceiveLeads(c, j);
          actions := [L.SkipIds(NextIdFor(Acts(c, j, RelayReceives).mux, c) - NextIdFor(j.mux, c)), L.RelayReceives];
        } else {
          actions := OtherLeads(c, j);
        }
      case OperatorReceives =>
        HearLeads(c, j);
        actions := if Credit(j.toOperator[0]) == [] then [] else [L.OperatorReceives];
      case Router(e) =>
        RouterLeads(c, j, e);
        actions := InLedger(j.mux, e, c);
      case SendsData(number, _, data) =>
        SendLeads(c, j, a);
        actions := [L.SendData(number, |data|)];
      case SendsClose(number) =>
        SendLeads(c, j, a);
        actions := [L.SendClose(number)];
      case _ =>
        SendLeads(c, j, a);
        actions := [];
    }
  }

  // EOF and requests.
  lemma OtherLeads(c: nat, j: Joint) returns (actions: seq<L.Action>)
    requires JointInv(c, j) && CanAct(c, j, RelayReceives) && PacketOf(j.toRelay[0]) == []
    ensures Leads(View(c, j), actions, View(c, Acts(c, j, RelayReceives)))
  {
    var rest := j.(toRelay := j.toRelay[1..]);
    assert Parcels(j.toRelay) == PacketOf(j.toRelay[0]) + Parcels(rest.toRelay);
    assert [] + Parcels(rest.toRelay) == Parcels(rest.toRelay);
    RouterLeads(c, rest, Operator(c, j.toRelay[0]));
    actions := InLedger(j.mux, Operator(c, j.toRelay[0]), c);
  }

  // ------------------------------------------------------------- all runs

  lemma OpeningStep(s: State, e: Event, c: nat)
    requires Inv(s) && Enabled(s, e)
    ensures var t := Handle(s, e).s;
      c in t.conns && t.conns[c].opening.Some? ==>
        e == Operator(c, ChannelOpen(true, t.conns[c].opening.value.sender))
        || (c in s.conns && s.conns[c].opening.Some? && s.conns[c].opening.value.sender == t.conns[c].opening.value.sender && !GrantsOurs(s, e, c))
  {
    if !Opens(s, e) { OthersShrink(s, e); }
    if e.Wake? { OpeningIsRelayed(s, e.conn); }
  }

  lemma RoutedKeeps(c: nat, j: Joint, e: Event)
    requires JointInv(c, j) && Enabled(j.mux, e) && Decent(e, c)
    requires e.Operator? && e.conn == c && e.got.ChannelOpen? ==> e.got.sender !in j.peers
    ensures JointInv(c, Routed(c, j, e))
  {
    HandleKeeps(j.mux, e);
    TidyStep(j.mux, e, c);
    OpeningStep(j.mux, e, c);
    PeersStep(c, j, e);
  }

  lemma ActKeeps(c: nat, j: Joint, a: Act)
    requires JointInv(c, j) && CanAct(c, j, a)
    ensures JointInv(c, Acts(c, j, a))
  {
    match a {
      case Asks(number) => RoutedKeeps(c, j, Operator(c, ChannelOpen(true, number)));
      case RelayReceives =>
        assert Sent(j.toRelay[0]);
        RoutedKeeps(c, j.(toRelay := j.toRelay[1..]), Operator(c, j.toRelay[0]));
      case Router(e) => RoutedKeeps(c, j, e);
      case _ =>
    }
  }

  lemma {:induction false} RunLeads(c: nat, j: Joint, acts: seq<Act>) returns (actions: seq<L.Action>)
    requires JointInv(c, j) && Possible(Both(c), j, acts)
    ensures Leads(View(c, j), actions, View(c, After(Both(c), j, acts).s))
    decreases acts
  {
    if acts == [] {
      actions := [];
    } else {
      var t := Acts(c, j, acts[0]);
      ActKeeps(c, j, acts[0]);
      var first := ActLeads(c, j, acts[0]);
      var rest := RunLeads(c, t, acts[1..]);
      LeadsOn(View(c, j), first, View(c, t), rest, View(c, After(Both(c), t, acts[1..]).s));
      actions := first + rest;
    }
  }

  lemma StartView(c: nat)
    ensures JointInv(c, TOGETHER) && View(c, TOGETHER) == L.START
  {
    StartConsistent();
  }

  // Bytes on their way to the relay for a channel, and grants on their way back for a number.
  function BytesUnderway(queue: seq<FromOperator>, l: nat): nat {
    if queue == [] then 0
    else (if (queue[0].GotData? || queue[0].GotExtended?) && queue[0].localId == l then |queue[0].data| else 0) + BytesUnderway(queue[1..], l)
  }

  function GrantsUnderway(messages: seq<Message>, n: nat): nat {
    if messages == [] then 0
    else (if messages[0].WindowAdjust? && messages[0].recipient == n then messages[0].amount else 0) + GrantsUnderway(messages[1..], n)
  }

  lemma {:induction false} BytesAre(queue: seq<FromOperator>, l: nat)
    ensures L.DataInFlight(Parcels(queue), l) == BytesUnderway(queue, l)
  {
    if queue != [] {
      BytesAre(queue[1..], l);
      var first, more := PacketOf(queue[0]), Parcels(queue[1..]);
      if first == [] { assert first + more == more; } else { assert (first + more)[1..] == more; }
    }
  }

  lemma {:induction false} GrantsAre(messages: seq<Message>, n: nat)
    ensures L.GrantsInFlight(Credits(messages), n) == GrantsUnderway(messages, n)
  {
    if messages != [] {
      GrantsAre(messages[1..], n);
      var first, more := Credit(messages[0]), Credits(messages[1..]);
      if first == [] { assert first + more == more; } else { assert (first + more)[1..] == more; }
    }
  }

  // In every run of router and operator together, for every channel that the connection lists: what
  // the operator may still send, what it has sent and is not handled, and what the router has granted
  // again and is not received, is the window of 2^31 - 1 bytes.  So the operator never overruns it,
  // and has all of it back once nothing is underway.
  lemma CreditAtTheRouter(c: nat, acts: seq<Act>, l: nat)
    requires Possible(Both(c), TOGETHER, acts) && l in Recipients(After(Both(c), TOGETHER, acts).s.mux, c)
    ensures var j := After(Both(c), TOGETHER, acts).s; var n := Recipients(j.mux, c)[l];
      && n in j.peers && j.peers[n].localId == l
      && j.peers[n].credit + BytesUnderway(j.toRelay, l) + GrantsUnderway(j.toOperator, n) == 0x7FFF_FFFF
  {
    StartView(c);
    var actions := RunLeads(c, TOGETHER, acts);
    var j := After(Both(c), TOGETHER, acts).s;
    L.CreditIsConserved(actions, l);
    BytesAre(j.toRelay, l);
    GrantsAre(j.toOperator, Recipients(j.mux, c)[l]);
  }
}
