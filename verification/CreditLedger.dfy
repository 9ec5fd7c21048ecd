/** Receiving under the window the relay grants, and closing (sections 5.2 and 5.3 of RFC 4254),
    as a model of two parties: an operator that sends no more than its credit and nothing behind
    its CLOSE, and uses a channel number again after CLOSE has gone both ways; and the relay,
    which grants every received byte again.  Both directions of the connection are queues. */
module CreditLedger {
  import opened Wrappers
  import opened ChannelMessages
  import opened Runs

  // What is underway to the relay: data for one of its channels, or the operator's CLOSE.
  datatype Packet = Parcel(localId: nat, size: nat) | Closing(localId: nat)

  // What the operator knows of a channel, under its own number for it.
  datatype Peer = Peer(localId: nat, credit: nat, sentClose: bool, gotClose: bool)

  datatype State = State(
    nextId: nat,
    recipients: map<nat, nat>,   // relay: the operator's number of every listed channel
    peers: map<nat, Peer>,       // operator: the numbers in use
    toRelay: seq<Packet>,
    toOperator: seq<Message>)

  datatype Action =
    | OpenChannel(number: nat, skip: nat)   // the open exchange, for a number that is not in use
    | SkipIds(skip: nat)                    // ids that the relay takes for other channels
    | SendData(number: nat, size: nat)
    | SendClose(number: nat)
    | RelayReceives
    | OperatorReceives
    | RemoteClose(localId: nat)             // the other end of the relayed channel has closed it

  const START := State(0, map[], map[], [], [])

  predicate Enabled(s: State, a: Action) {
    match a
    case OpenChannel(number, _) => number !in s.peers
    case SkipIds(_) => true
    case SendData(number, size) => number in s.peers && !s.peers[number].sentClose && size <= s.peers[number].credit
    case SendClose(number) => number in s.peers && !s.peers[number].sentClose
    case RelayReceives => s.toRelay != []
    case OperatorReceives => s.toOperator != []
    case RemoteClose(localId) => localId in s.recipients
  }

  // A number whose CLOSE went both ways is free again.
  function Settled(peers: map<nat, Peer>, number: nat, p: Peer): map<nat, Peer> {
    if p.sentClose && p.gotClose then peers - {number} else peers[number := p]
  }

  // The relay delists a channel and sends CLOSE.
  function Closed(s: State, localId: nat): State {
    if localId !in s.recipients then s
    else s.(recipients := s.recipients - {localId}, toOperator := s.toOperator + [Close(s.recipients[localId])])
  }

  function Granted(s: State, localId: nat, size: nat): State {
    var to := if localId in s.recipients then Some(s.recipients[localId]) else None;
    s.(toOperator := s.toOperator + Adjustment(to, size))
  }

  function Heard(s: State, m: Message): State {
    if m.Open? || m.recipient !in s.peers then s
    else
      var number, p := m.recipient, s.peers[m.recipient];
      match m
      case WindowAdjust(_, amount) => s.(peers := s.peers[number := p.(credit := p.credit + amount)])
      case Close(_) => s.(peers := Settled(s.peers, number, p.(gotClose := true)))
      case _ => s
  }

  function Next(s: State, a: Action): State
    requires Enabled(s, a)
  {
    match a
    case OpenChannel(number, skip) =>
      s.(nextId := s.nextId + 1 + skip, recipients := s.recipients[s.nextId := number],
         peers := s.peers[number := Peer(s.nextId, CHANNEL_WINDOW, false, false)])
    case SkipIds(skip) => s.(nextId := s.nextId + skip)
    case SendData(number, size) =>
      var p := s.peers[number];
      s.(peers := s.peers[number := p.(credit := p.credit - size)], toRelay := s.toRelay + [Parcel(p.localId, size)])
    case SendClose(number) =>
      var p := s.peers[number];
      s.(peers := Settled(s.peers, number, p.(sentClose := true)), toRelay := s.toRelay + [Closing(p.localId)])
    case RelayReceives =>
      var p, t := s.toRelay[0], s.(toRelay := s.toRelay[1..]);
      if p.Parcel? then Granted(t, p.localId, p.size) else Closed(t, p.localId)
    case OperatorReceives => Heard(s.(toOperator := s.toOperator[1..]), s.toOperator[0])
    case RemoteClose(localId) => Closed(s, localId)
  }

  const LEDGER: System<State, Action, Message> :=
    System(Enabled, (s: State, a: Action) => if Enabled(s, a) then Effect(Next(s, a), []) else Effect(s, []))

  // Bytes on their way to a channel of the relay, ...
  function DataInFlight(packets: seq<Packet>, localId: nat): nat {
    if packets == [] then 0
    else (if packets[0].Parcel? && packets[0].localId == localId then packets[0].size else 0) + DataInFlight(packets[1..], localId)
  }

  // ... and grants on their way back.
  function GrantsInFlight(messages: seq<Message>, number: nat): nat {
    if messages == [] then 0
    else (if messages[0].WindowAdjust? && messages[0].recipient == number then messages[0].amount else 0) + GrantsInFlight(messages[1..], number)
  }

  lemma {:induction false} DataSnoc(packets: seq<Packet>, p: Packet, localId: nat)
    ensures DataInFlight(packets + [p], localId) == DataInFlight(packets, localId) + if p.Parcel? && p.localId == localId then p.size else 0
  {
    if packets == [] {
      assert packets + [p] == [p] && [p][1..] == [];
    } else {
      DataSnoc(packets[1..], p, localId);
      assert (packets + [p])[1..] == packets[1..] + [p];
    }
  }

  lemma {:induction false} GrantsSnoc(messages: seq<Message>, m: Message, number: nat)
    ensures GrantsInFlight(messages + [m], number)
      == GrantsInFlight(messages, number) + if m.WindowAdjust? && m.recipient == number then m.amount else 0
  {
    if messages == [] {
      assert messages + [m] == [m] && [m][1..] == [];
    } else {
      GrantsSnoc(messages[1..], m, number);
      assert (messages + [m])[1..] == messages[1..] + [m];
    }
  }

  lemma {:induction false} NoData(packets: seq<Packet>, localId: nat)
    requires forall i :: 0 <= i < |packets| ==> packets[i].localId != localId
    ensures DataInFlight(packets, localId) == 0
  {
    if packets != [] { NoData(packets[1..], localId); }
  }

  lemma {:induction false} NoGrants(messages: seq<Message>, number: nat)
    requires forall i :: 0 <= i < |messages| ==> !messages[i].Open? && messages[i].recipient != number
    ensures GrantsInFlight(messages, number) == 0
  {
    if messages != [] { NoGrants(messages[1..], number); }
  }

  // ------------------------------------------------------------- invariant

  // Credit, data underway and grants underway make up the window of a listed channel.
  predicate Balanced(s: State, localId: nat)
    requires localId in s.recipients && s.recipients[localId] in s.peers
  {
    var number := s.recipients[localId];
    s.peers[number].credit + DataInFlight(s.toRelay, localId) + GrantsInFlight(s.toOperator, number) == CHANNEL_WINDOW
  }

  // A listed channel is the one that has its number at the operator, and no CLOSE was sent for it.
  predicate ListedAt(s: State, localId: nat)
    requires localId in s.recipients
  {
    var number := s.recipients[localId];
    && number in s.peers && s.peers[number].localId == localId && !s.peers[number].gotClose
    && Close(number) !in s.toOperator && Balanced(s, localId)
  }

  // A number that is in use is waiting for a CLOSE: its own at the relay, or the relay's.
  predicate PeerAt(s: State, number: nat)
    requires number in s.peers
  {
    var p := s.peers[number];
    && p.localId < s.nextId && !(p.sentClose && p.gotClose)
    && (p.localId !in s.recipients ==> p.gotClose || Close(number) in s.toOperator)
    && (p.localId in s.recipients ==> s.recipients[p.localId] == number)
    && (p.sentClose && p.localId in s.recipients ==> Closing(p.localId) in s.toRelay)
  }

  // A message is for a number in use, from before the relay's CLOSE.
  predicate MessageAt(s: State, i: nat)
    requires i < |s.toOperator|
  {
    var m := s.toOperator[i];
    && (m.WindowAdjust? || m.Close?) && m.recipient in s.peers && !s.peers[m.recipient].gotClose
    && (m.Close? ==> forall j :: i < j < |s.toOperator| ==> Other(s.toOperator[j], m.recipient))
  }

  predicate Other(m: Message, number: nat) {
    !m.Open? && m.recipient != number
  }

  ghost predicate Invariant(s: State) {
    && (forall l :: l in s.recipients ==> ListedAt(s, l))
    && (forall n :: n in s.peers ==> PeerAt(s, n))
    && (forall k, n :: k in s.peers && n in s.peers && s.peers[k].localId == s.peers[n].localId ==> k == n)
    && (forall i :: 0 <= i < |s.toRelay| ==> s.toRelay[i].localId < s.nextId)
    && (forall i :: 0 <= i < |s.toOperator| ==> MessageAt(s, i))
  }

  lemma SkipKeeps(s: State, skip: nat)
    requires Invariant(s)
    ensures Invariant(Next(s, SkipIds(skip)))
  {
    var t := Next(s, SkipIds(skip));
    forall l | l in t.recipients
      ensures ListedAt(t, l)
    {
      assert ListedAt(s, l);
    }
    forall n | n in t.peers
      ensures PeerAt(t, n)
    {
      assert PeerAt(s, n);
    }
    forall i | 0 <= i < |t.toOperator|
      ensures MessageAt(t, i)
    {
      assert MessageAt(s, i);
    }
  }

  lemma OpenKeeps(s: State, number: nat, skip: nat)
    requires Invariant(s) && Enabled(s, OpenChannel(number, skip))
    ensures Invariant(Next(s, OpenChannel(number, skip)))
  {
    var t := Next(s, OpenChannel(number, skip));
    forall i | 0 <= i < |t.toOperator|
      ensures MessageAt(t, i) && s.toOperator[i].recipient != number
    {
      assert MessageAt(s, i);
    }
    NoData(s.toRelay, s.nextId);
    NoGrants(s.toOperator, number);
    forall l | l in s.recipients
      ensures l < s.nextId
    {
      assert ListedAt(s, l) && PeerAt(s, s.recipients[l]);
    }
    forall l | l in t.recipients
      ensures ListedAt(t, l)
    {
      if l != s.nextId { assert ListedAt(s, l); }
    }
    forall n | n in t.peers
      ensures PeerAt(t, n)
    {
      if n != number { assert PeerAt(s, n); }
    }
  }

  lemma SendKeeps(s: State, number: nat, size: nat)
    requires Invariant(s) && Enabled(s, SendData(number, size))
    ensures Invariant(Next(s, SendData(number, size)))
  {
    var t := Next(s, SendData(number, size));
    assert PeerAt(s, number);
    forall l | l in t.recipients
      ensures ListedAt(t, l)
    {
      assert ListedAt(s, l);
      DataSnoc(s.toRelay, Parcel(s.peers[number].localId, size), l);
    }
    forall n | n in t.peers
      ensures PeerAt(t, n)
    {
      assert PeerAt(s, n);
    }
    forall i | 0 <= i < |t.toOperator|
      ensures MessageAt(t, i)
    {
      assert MessageAt(s, i);
    }
  }

  lemma SendCloseKeeps(s: State, number: nat)
    requires Invariant(s) && Enabled(s, SendClose(number))
    ensures Invariant(Next(s, SendClose(number)))
  {
    var t, closing := Next(s, SendClose(number)), Closing(s.peers[number].localId);
    assert PeerAt(s, number);
    assert t.toRelay[|s.toRelay|] == closing;
    forall l | l in t.recipients
      ensures ListedAt(t, l)
    {
      assert ListedAt(s, l);
      DataSnoc(s.toRelay, closing, l);
    }
    forall n | n in t.peers
      ensures PeerAt(t, n)
    {
      assert PeerAt(s, n);
    }
    forall i | 0 <= i < |t.toOperator|
      ensures MessageAt(t, i)
    {
      assert MessageAt(s, i);
    }
  }

  // The relay says something for a listed channel.
  lemma SayKeepsOrder(s: State, t: State, localId: nat, m: Message, i: nat)
    requires Invariant(s) && localId in s.recipients && (m.WindowAdjust? || m.Close?) && m.recipient == s.recipients[localId]
    requires t.peers == s.peers && t.toOperator == s.toOperator + [m] && i < |t.toOperator|
    ensures MessageAt(t, i)
  {
    assert ListedAt(s, localId);
    if i < |s.toOperator| {
      assert MessageAt(s, i) && s.toOperator[i] in s.toOperator;
    }
  }

  // The head of the queue to the relay is taken off.
  function Popped(s: State): State
    requires s.toRelay != []
  {
    s.(toRelay := s.toRelay[1..])
  }

  lemma GrantKeeps(s: State)
    requires Invariant(s) && Enabled(s, RelayReceives) && s.toRelay[0].Parcel?
    ensures Invariant(Next(s, RelayReceives))
  {
    var t, p := Next(s, RelayReceives), s.toRelay[0];
    assert s.toRelay == [p] + s.toRelay[1..];
    var speaks := p.localId in s.recipients && p.size > 0;
    var m := if speaks then WindowAdjust(s.recipients[p.localId], p.size) else Close(0);
    assert t.toOperator == if speaks then s.toOperator + [m] else s.toOperator;
    if speaks { assert ListedAt(s, p.localId); }
    forall l | l in t.recipients
      ensures ListedAt(t, l)
    {
      assert ListedAt(s, l);
      if speaks { GrantsSnoc(s.toOperator, m, s.recipients[l]); }
    }
    forall n | n in t.peers
      ensures PeerAt(t, n)
    {
      assert PeerAt(s, n);
    }
    forall i | 0 <= i < |t.toOperator|
      ensures MessageAt(t, i)
    {
      if speaks { SayKeepsOrder(s, t, p.localId, m, i); } else { assert MessageAt(s, i); }
    }
  }

  // The relay closes a channel, when it is told to by either end.
  lemma CloseKeeps(s: State, t: State, localId: nat)
    requires Invariant(s) && (t == Closed(s, localId) || (s.toRelay != [] && s.toRelay[0] == Closing(localId) && t == Closed(Popped(s), localId)))
    ensures Invariant(t)
  {
    var speaks := localId in s.recipients;
    var m := if speaks then Close(s.recipients[localId]) else Close(0);
    if speaks { assert ListedAt(s, localId); }
    assert s.toRelay != [] ==> s.toRelay == [s.toRelay[0]] + s.toRelay[1..];
    forall l | l in t.recipients
      ensures ListedAt(t, l)
    {
      assert ListedAt(s, l);
      if speaks { GrantsSnoc(s.toOperator, m, s.recipients[l]); }
    }
    forall n | n in t.peers
      ensures PeerAt(t, n)
    {
      assert PeerAt(s, n);
      if speaks { assert t.toOperator[|s.toOperator|] == m; }
    }
    forall i | 0 <= i < |t.toOperator|
      ensures MessageAt(t, i)
    {
      if speaks { SayKeepsOrder(s, t, localId, m, i); } else { assert MessageAt(s, i); }
    }
  }

  lemma Shifted(s: State, t: State, i: nat)
    requires s.toOperator != [] && t.toOperator == s.toOperator[1..] && i < |t.toOperator| && MessageAt(s, i + 1)
    requires s.toOperator[i + 1].recipient in t.peers && !t.peers[s.toOperator[i + 1].recipient].gotClose
    ensures MessageAt(t, i)
  {
    forall j | i < j < |t.toOperator| && t.toOperator[i].Close?
      ensures Other(t.toOperator[j], t.toOperator[i].recipient)
    {
      assert Other(s.toOperator[j + 1], s.toOperator[i + 1].recipient);
    }
  }

  lemma HearGrantKeeps(s: State)
    requires Invariant(s) && Enabled(s, OperatorReceives) && s.toOperator[0].WindowAdjust?
    ensures Invariant(Next(s, OperatorReceives))
  {
    var t, m := Next(s, OperatorReceives), s.toOperator[0];
    assert s.toOperator == [m] + s.toOperator[1..];
    assert MessageAt(s, 0);
    forall l | l in t.recipients
      ensures ListedAt(t, l)
    {
      assert ListedAt(s, l);
    }
    forall n | n in t.peers
      ensures PeerAt(t, n)
    {
      assert PeerAt(s, n);
    }
    forall i | 0 <= i < |t.toOperator|
      ensures MessageAt(t, i)
    {
      assert MessageAt(s, i + 1);
      Shifted(s, t, i);
    }
  }

  lemma HearCloseKeeps(s: State)
    requires Invariant(s) && Enabled(s, OperatorReceives) && s.toOperator[0].Close?
    ensures Invariant(Next(s, OperatorReceives))
  {
    var t, m := Next(s, OperatorReceives), s.toOperator[0];
    assert s.toOperator == [m] + s.toOperator[1..];
    assert MessageAt(s, 0) && PeerAt(s, m.recipient);
    forall l | l in t.recipients
      ensures ListedAt(t, l)
    {
      assert ListedAt(s, l);
    }
    forall n | n in t.peers
      ensures PeerAt(t, n)
    {
      assert PeerAt(s, n);
    }
    forall i | 0 <= i < |t.toOperator|
      ensures MessageAt(t, i)
    {
      assert MessageAt(s, i + 1) && Other(s.toOperator[i + 1], m.recipient);
      Shifted(s, t, i);
    }
  }

  lemma StepKeeps(s: State, a: Action)
    requires Invariant(s) && Enabled(s, a)
    ensures Invariant(Next(s, a))
  {
    match a {
      case OpenChannel(number, skip) => OpenKeeps(s, number, skip);
      case SkipIds(skip) => SkipKeeps(s, skip);
      case SendData(number, size) => SendKeeps(s, number, size);
      case SendClose(number) => SendCloseKeeps(s, number);
      case RelayReceives =>
        if s.toRelay[0].Parcel? { GrantKeeps(s); } else { CloseKeeps(s, Next(s, a), s.toRelay[0].localId); }
      case OperatorReceives =>
        assert MessageAt(s, 0);
        if s.toOperator[0].Close? { HearCloseKeeps(s); } else { HearGrantKeeps(s); }
      case RemoteClose(localId) => CloseKeeps(s, Next(s, a), localId);
    }
  }

  lemma Holds(actions: seq<Action>)
    requires Possible(LEDGER, START, actions)
    ensures Invariant(After(LEDGER, START, actions).s)
  {
    forall s, a | Invariant(s) && Enabled(s, a)
      ensures Invariant(LEDGER.step(s, a).s)
    {
      StepKeeps(s, a);
    }
    RunKeeps(LEDGER, Invariant, START, actions);
  }

  lemma {:induction false} GrantIsPart(messages: seq<Message>, i: nat)
    requires i < |messages| && messages[i].WindowAdjust?
    ensures messages[i].amount <= GrantsInFlight(messages, messages[i].recipient)
  {
    if i > 0 { GrantIsPart(messages[1..], i - 1); }
  }

  // In every reachable state and for every listed channel: nothing of the window is lost and
  // nothing is granted twice, so an operator that respects its credit never overruns the
  // window, has all of it back once nothing is underway, and is never sent an amount that
  // does not fit its 32-bit field.  This holds although numbers are used again.
  lemma CreditIsConserved(actions: seq<Action>, localId: nat)
    requires Possible(LEDGER, START, actions) && localId in After(LEDGER, START, actions).s.recipients
    ensures var t := After(LEDGER, START, actions).s; var number := t.recipients[localId];
      && number in t.peers && t.peers[number].localId == localId
      && t.peers[number].credit + DataInFlight(t.toRelay, localId) + GrantsInFlight(t.toOperator, number) == CHANNEL_WINDOW
      && DataInFlight(t.toRelay, localId) <= CHANNEL_WINDOW
      && (t.toRelay == [] && t.toOperator == [] ==> t.peers[number].credit == CHANNEL_WINDOW)
      && forall i :: 0 <= i < |t.toOperator| && t.toOperator[i].WindowAdjust? && t.toOperator[i].recipient == number ==>
           t.toOperator[i].amount <= CHANNEL_WINDOW
  {
    Holds(actions);
    var t := After(LEDGER, START, actions).s;
    assert ListedAt(t, localId);
    forall i | 0 <= i < |t.toOperator| && t.toOperator[i].WindowAdjust? && t.toOperator[i].recipient == t.recipients[localId]
      ensures t.toOperator[i].amount <= CHANNEL_WINDOW
    {
      GrantIsPart(t.toOperator, i);
    }
  }

  // A number never reaches a second channel too early: everything underway to the operator is
  // for the channel that has the number now, and nothing for it follows a CLOSE.  And it does
  // come free: once nothing is underway, no number is in use whose CLOSE was sent, and the relay
  // lists a channel exactly if the operator has not been told that it is closed.
  lemma NumbersComeFree(actions: seq<Action>)
    requires Possible(LEDGER, START, actions)
    ensures var t := After(LEDGER, START, actions).s;
      && (forall i, j :: 0 <= i < j < |t.toOperator| && t.toOperator[i].Close? ==> Other(t.toOperator[j], t.toOperator[i].recipient))
      && (forall i :: 0 <= i < |t.toOperator| ==>
            (t.toOperator[i].WindowAdjust? || t.toOperator[i].Close?)
            && t.toOperator[i].recipient in t.peers && !t.peers[t.toOperator[i].recipient].gotClose)
      && (t.toRelay == [] && t.toOperator == [] ==> forall n :: n in t.peers ==>
            !t.peers[n].sentClose && (t.peers[n].localId in t.recipients <==> !t.peers[n].gotClose))
  {
    Holds(actions);
    var t := After(LEDGER, START, actions).s;
    forall i, j | 0 <= i < j < |t.toOperator| && t.toOperator[i].Close?
      ensures Other(t.toOperator[j], t.toOperator[i].recipient)
    {
      assert MessageAt(t, i);
    }
    forall i | 0 <= i < |t.toOperator|
      ensures t.toOperator[i].WindowAdjust? || t.toOperator[i].Close?
      ensures t.toOperator[i].recipient in t.peers && !t.peers[t.toOperator[i].recipient].gotClose
    {
      assert MessageAt(t, i);
    }
    forall n | n in t.peers && t.toRelay == [] && t.toOperator == []
      ensures !t.peers[n].sentClose && (t.peers[n].localId in t.recipients <==> !t.peers[n].gotClose)
    {
      assert PeerAt(t, n);
      if t.peers[n].localId in t.recipients { assert ListedAt(t, t.peers[n].localId); }
    }
  }

  predicate SecondHasNumber(s: State, number: nat) {
    s.recipients == map[1 := number] && s.peers.Keys == {number}
  }

  // After CLOSE has gone both ways nothing is left of a channel, ...
  lemma ClosedBothWays(s: State, number: nat)
    requires s.recipients == map[] && s.peers == map[] && s.toRelay == [] && s.toOperator == []
    ensures var actions := [OpenChannel(number, 0)] + ([SendClose(number)] + ([RelayReceives] + ([OperatorReceives] + [])));
      Possible(LEDGER, s, actions) && After(LEDGER, s, actions).s == s.(nextId := s.nextId + 1)
  {
    var s1 := Next(s, OpenChannel(number, 0));
    var s2 := Next(s1, SendClose(number));
    var s3 := Next(s2, RelayReceives);
    assert s3.toRelay == [] && s3.toOperator == [Close(number)] && s3.recipients == map[];
    assert Next(s3, OperatorReceives) == s.(nextId := s.nextId + 1);
    StepFirst(LEDGER, s3, OperatorReceives, []);
    StepFirst(LEDGER, s2, RelayReceives, [OperatorReceives] + []);
    StepFirst(LEDGER, s1, SendClose(number), [RelayReceives] + ([OperatorReceives] + []));
    StepFirst(LEDGER, s, OpenChannel(number, 0), [SendClose(number)] + ([RelayReceives] + ([OperatorReceives] + [])));
  }

  // ... so its number can be used again, for another one.
  lemma NumberUsedAgain(number: nat)
    ensures exists actions :: Possible(LEDGER, START, actions) && SecondHasNumber(After(LEDGER, START, actions).s, number)
  {
    var actions := [OpenChannel(number, 0)] + ([SendClose(number)] + ([RelayReceives] + ([OperatorReceives] + [])));
    ClosedBothWays(START, number);
    StepLast(LEDGER, START, actions, OpenChannel(number, 0));
    assert SecondHasNumber(After(LEDGER, START, actions + [OpenChannel(number, 0)]).s, number);
  }
}
