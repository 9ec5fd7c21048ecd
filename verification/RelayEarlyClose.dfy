/** When a channel that the operator can use is missing from the client's dictionary: the client
    closed it while it was being opened.

    The relay confirms such a channel to the operator all the same (relay.py:165-185, 826-838). */
module RelayEarlyClose {
  import opened Wrappers
  import opened RelayMux
  import opened RelayRouting
  import opened RelayTraces
  import opened Runs

  // Event a is the client's CHANNEL_CLOSE for the channel, and finds it being opened.
  ghost predicate ClosedWhileOpened(events: seq<Event>, ref: nat, id: nat, a: nat) {
    && a < |events| && events[a] == Client(SentClose(id))
    && var s := Before(MUX, START, events, a); ref < |s.chans| && BeingOpened(s, ref)
  }

  // A closed channel that a connection lists or is opening.
  predicate ClosedAndLive(s: State, ref: nat) {
    IsRelayed(s, ref) && s.chans[ref].closed && Live(s, TowardsClient, ref)
  }

  lemma ClosedByOperator(s: State, conn: nat, localId: nat, ref: nat)
    requires Inv(s) && Enabled(s, Operator(conn, GotClose(localId))) && IsRelayed(s, ref)
    requires localId in s.conns[conn].channels && s.conns[conn].channels[localId] == ref
    ensures !ClosedAndLive(OnOperator(s, conn, GotClose(localId)).s, ref)
  {
    ListedAs(s, conn, localId);
    assert ListedAt(s, conn, localId);
    NotOpening(s, ref);
  }

  lemma ListedHasRecipient(s: State, ref: nat)
    requires Inv(s) && IsRelayed(s, ref)
    ensures Listed(s, ref) ==> s.chans[ref].recipient.Some?
  {
    if Listed(s, ref) { assert ListedAt(s, s.chans[ref].conn, s.chans[ref].localId); }
  }

  lemma ClosedByClient(s: State, id: nat, ref: nat)
    requires Inv(s) && IsRelayed(s, ref) && id in s.client && s.client[id] == ref
    requires ClosedAndLive(OnClient(s, SentClose(id)).s, ref)
    ensures s.chans[ref].kind == Remote(id) && BeingOpened(s, ref)
  {
    StoredAs(s, id);
    ListedHasRecipient(s, ref);
    if s.chans[ref].recipient.Some? { NotOpening(s, ref); }
  }

  // Nothing else closes a relayed channel.
  lemma OnlyTheseClose(s: State, e: Event, ref: nat)
    requires Inv(s) && Enabled(s, e) && IsRelayed(s, ref) && !s.chans[ref].closed
    requires IsRelayed(Handle(s, e).s, ref) && Handle(s, e).s.chans[ref].closed
    ensures (e.Operator? && e.got.GotClose? && Find(s.conns[e.conn].channels, e.got.localId) == Some(ref))
      || (e.Client? && e.frame.SentClose? && Find(s.client, e.frame.id) == Some(ref))
  {
    if e.Operator? && !e.got.ChannelOpen? && e.got.localId in s.conns[e.conn].channels {
      ListedAs(s, e.conn, e.got.localId);
    }
  }

  lemma FreshIsOpen(s: State, e: Event, ref: nat)
    requires Inv(s) && Enabled(s, e) && ref >= |s.chans|
    ensures !ClosedAndLive(Handle(s, e).s, ref)
  {
    if !Opens(s, e) { OthersShrink(s, e); }
  }

  lemma BecomesClosedAndLive(s: State, e: Event, ref: nat)
    requires Inv(s) && Enabled(s, e) && !ClosedAndLive(s, ref) && ClosedAndLive(Handle(s, e).s, ref)
    ensures ref < |s.chans| && BeingOpened(s, ref) && e == Client(SentClose(Handle(s, e).s.chans[ref].kind.remoteId))
  {
    if ref >= |s.chans| {
      FreshIsOpen(s, e, ref);
    } else {
      ChannelStays(s, e, ref);
      if !Live(s, TowardsClient, ref) {
        GoneStaysGone(s, e, TowardsClient, ref);
      } else {
        OnlyTheseClose(s, e, ref);
        match e {
          case Operator(conn, got) => ClosedByOperator(s, conn, got.localId, ref);
          case Client(f) => ClosedByClient(s, f.id, ref);
        }
      }
    }
  }

  predicate HasClosed(s: State, ref: nat) {
    IsRelayed(s, ref) && s.chans[ref].closed
  }

  lemma StaysClosed(s: State, e: Event, ref: nat)
    requires Inv(s) && Enabled(s, e) && HasClosed(s, ref)
    ensures HasClosed(Handle(s, e).s, ref)
  {
    ChannelStays(s, e, ref);
    if !Opens(s, e) {
      OthersShrink(s, e);
      assert ChannelAfter(s.chans[ref], Handle(s, e).s.chans[ref]);
    }
  }

  lemma ClosesWhileOpened(s: State, id: nat, ref: nat)
    requires Inv(s) && IsRelayed(s, ref) && s.chans[ref].kind == Remote(id) && BeingOpened(s, ref)
    ensures HasClosed(OnClient(s, SentClose(id)).s, ref)
  {
    var conn := s.chans[ref].conn;
    assert OpeningAt(s, conn) && Stored(s, ref);
    if id in s.client { ClientIds(s, ref); }
  }

  lemma OpenedIsRelayed(s: State, ref: nat)
    requires Inv(s) && ref < |s.chans| && BeingOpened(s, ref)
    ensures IsRelayed(s, ref)
  {
    assert OpeningAt(s, s.chans[ref].conn);
  }

  predicate OfKind(s: State, ref: nat, kind: Kind) {
    IsRelayed(s, ref) && s.chans[ref].kind == kind
  }

  lemma OfKindStays(s: State, e: Event, ref: nat, kind: Kind)
    requires Inv(s) && Enabled(s, e) && OfKind(s, ref, kind)
    ensures OfKind(Handle(s, e).s, ref, kind)
  {
    ChannelStays(s, e, ref);
  }

  ghost predicate KindKept(s: State, ref: nat, kind: Kind) {
    Inv(s) && OfKind(s, ref, kind)
  }

  lemma KindIsKept(ref: nat, kind: Kind)
    ensures Keeps(MUX, (s: State) => KindKept(s, ref, kind))
  {
    forall s, e | KindKept(s, ref, kind) && Enabled(s, e)
      ensures KindKept(MUX.step(s, e).s, ref, kind)
    {
      HandleKeeps(s, e);
      OfKindStays(s, e, ref, kind);
    }
  }

  lemma KindStays(start: State, events: seq<Event>, a: nat, ref: nat)
    requires Possible(MUX, start, events) && a <= |events|
    requires IsRelayed(Before(MUX, start, events, a), ref) && Inv(Before(MUX, start, events, a))
    ensures OfKind(After(MUX, start, events).s, ref, Before(MUX, start, events, a).chans[ref].kind)
  {
    var kind := Before(MUX, start, events, a).chans[ref].kind;
    KindIsKept(ref, kind);
    KeptToEnd(MUX, (s: State) => KindKept(s, ref, kind), start, events, a);
  }

  ghost predicate ClosedKept(s: State, ref: nat) {
    Inv(s) && HasClosed(s, ref)
  }

  lemma ClosedIsKept(ref: nat)
    ensures Keeps(MUX, (s: State) => ClosedKept(s, ref))
  {
    forall s, e | ClosedKept(s, ref) && Enabled(s, e)
      ensures ClosedKept(MUX.step(s, e).s, ref)
    {
      HandleKeeps(s, e);
      StaysClosed(s, e, ref);
    }
  }

  lemma ClosedInTheEnd(start: State, events: seq<Event>, a: nat, ref: nat)
    requires Possible(MUX, start, events) && a <= |events| && ClosedKept(Before(MUX, start, events, a), ref)
    ensures HasClosed(After(MUX, start, events).s, ref)
  {
    ClosedIsKept(ref);
    KeptToEnd(MUX, (s: State) => ClosedKept(s, ref), start, events, a);
  }

  // A step that finds the channel being opened, and closes it.
  lemma EarlyCloseCloses(start: State, events: seq<Event>, a: nat, ref: nat, id: nat)
    requires Inv(start) && Possible(MUX, start, events) && a < |events| && events[a] == Client(SentClose(id))
    requires var s := Before(MUX, start, events, a); ref < |s.chans| && BeingOpened(s, ref)
    requires var s := After(MUX, start, events).s; ref < |s.chans| && s.chans[ref].kind == Remote(id)
    ensures HasClosed(After(MUX, start, events).s, ref)
  {
    var s := Before(MUX, start, events, a);
    StartConsistent();
    KeptBefore(MUX, Inv, start, events, a);
    OpenedIsRelayed(s, ref);
    KindStays(start, events, a, ref);
    ClosesWhileOpened(s, id, ref);
    HandleKeeps(s, events[a]);
    BeforeNext(MUX, start, events, a);
    ClosedInTheEnd(start, events, a + 1, ref);
  }

  // The step at which a channel becomes closed although it can be used.
  lemma EarlyCloseFound(start: State, events: seq<Event>, ref: nat) returns (a: nat)
    requires Inv(start) && Possible(MUX, start, events) && !ClosedAndLive(start, ref) && ClosedAndLive(After(MUX, start, events).s, ref)
    ensures a < |events| && events[a] == Client(SentClose(After(MUX, start, events).s.chans[ref].kind.remoteId))
    ensures var s := Before(MUX, start, events, a); ref < |s.chans| && BeingOpened(s, ref)
  {
    a := BeginsToHold(MUX, (s: State) => ClosedAndLive(s, ref), start, events);
    var s := Before(MUX, start, events, a);
    StartConsistent();
    KeptBefore(MUX, Inv, start, events, a);
    BecomesClosedAndLive(s, events[a], ref);
    HandleKeeps(s, events[a]);
    BeforeNext(MUX, start, events, a);
    KindStays(start, events, a + 1, ref);
  }

  // In every reachable state, a relayed channel that the operator's connection lists is missing
  // from the client's dictionary if and only if the client's CHANNEL_CLOSE for its id arrived
  // while the channel was being opened.
  lemma UnstoredExactly(events: seq<Event>, ref: nat)
    requires Possible(MUX, START, events)
    requires var s := After(MUX, START, events).s; IsRelayed(s, ref) && Listed(s, ref)
    ensures var s := After(MUX, START, events).s; var id := s.chans[ref].kind.remoteId;
      id !in s.client <==> exists a :: ClosedWhileOpened(events, ref, id, a)
  {
    var s := After(MUX, START, events).s;
    var id := s.chans[ref].kind.remoteId;
    StartConsistent();
    RunKeeps(MUX, Inv, START, events);
    assert ListedAt(s, s.chans[ref].conn, s.chans[ref].localId) && NumberedAt(s, ref);
    ClientIds(s, ref);
    if id !in s.client {
      var a := EarlyCloseFound(START, events, ref);
      assert ClosedWhileOpened(events, ref, id, a);
    }
    if a :| ClosedWhileOpened(events, ref, id, a) {
      EarlyCloseCloses(START, events, a, ref, id);
    }
  }
}
