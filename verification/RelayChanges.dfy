/** What becomes of a channel of the router in one step: when it is listed, addressed, stored and
    closed, each as an if-and-only-if over the events. */
module RelayChanges {
  import opened Wrappers
  import opened Bits
  import opened ChannelMessages
  import opened RelayMux
  import opened RelayRouting
  import opened RelayTraces
  import opened Runs

  // The open exchange of the channel ends well.
  predicate IsGranted(s: State, e: Event, ref: nat) {
    && e.Wake? && !e.timedOut && e.conn in s.conns && s.conns[e.conn].opening.Some?
    && s.conns[e.conn].opening.value.ref == ref && s.conns[e.conn].opening.value.answer == Some(true)
  }

  predicate IsRefused(s: State, e: Event, ref: nat) {
    && e.Wake? && e.conn in s.conns && s.conns[e.conn].opening.Some?
    && s.conns[e.conn].opening.value.ref == ref && (e.timedOut || s.conns[e.conn].opening.value.answer != Some(true))
  }

  // The operator's message reaches the channel: its connection lists it under that id.
  predicate Reaches(s: State, e: Event, ref: nat) {
    e.Operator? && !e.got.ChannelOpen? && e.conn in s.conns && Find(s.conns[e.conn].channels, e.got.localId) == Some(ref)
  }

  // The client's CHANNEL_CLOSE reaches the channel: it is stored under that id.
  predicate ClosedByClient(s: State, e: Event, ref: nat) {
    e.Client? && e.frame.SentClose? && Find(s.client, e.frame.id) == Some(ref)
  }

  predicate HasRecipient(s: State, ref: nat) {
    ref < |s.chans| && s.chans[ref].recipient.Some?
  }

  predicate Delists(s: State, e: Event, ref: nat) {
    || (Reaches(s, e, ref) && (e.got.GotClose? || e.got.GotFailure?))
    || (ClosedByClient(s, e, ref) && HasRecipient(s, ref))
    || (e == TcpEnd(ref) && HasRecipient(s, ref))
  }

  lemma ReachedAs(s: State, e: Event, ref: nat)
    requires Inv(s) && Reaches(s, e, ref)
    ensures IsChannel(s, ref) && s.chans[ref].conn == e.conn && s.chans[ref].localId == e.got.localId && Listed(s, ref)
  {
    ListedAs(s, e.conn, e.got.localId);
  }

  lemma OneLocalId(s: State, a: nat, b: nat)
    requires Inv(s) && a < |s.chans| && b < |s.chans|
    ensures s.chans[a].conn == s.chans[b].conn && s.chans[a].localId == s.chans[b].localId ==> a == b
  {
    assert a < b ==> Apart(s.chans[a], s.chans[b]);
    assert b < a ==> Apart(s.chans[b], s.chans[a]);
  }

  // A channel leaves the dictionary of its connection exactly when either side closes it, its open is
  // refused, or its TCP connection ends; and it gets there exactly when its open is granted.
  predicate ListedNext(s: State, e: Event, ref: nat, t: State)
    requires ref < |s.chans|
  {
    ref < |t.chans| && (Listed(t, ref) <==> (Listed(s, ref) && !Delists(s, e, ref)) || IsGranted(s, e, ref))
  }

  lemma WakeListing(s: State, conn: nat, timedOut: bool, ref: nat)
    requires Inv(s) && Enabled(s, Wake(conn, timedOut)) && ref < |s.chans| && NumberedAt(s, ref)
    ensures ListedNext(s, Wake(conn, timedOut), ref, Handle(s, Wake(conn, timedOut)).s)
  {
    OpeningAs(s, conn);
    assert OpeningAt(s, conn);
    OneLocalId(s, ref, s.conns[conn].opening.value.ref);
  }

  lemma TcpListing(s: State, other: nat, ref: nat)
    requires Inv(s) && Enabled(s, TcpEnd(other)) && ref < |s.chans| && NumberedAt(s, ref)
    ensures ListedNext(s, TcpEnd(other), ref, Handle(s, TcpEnd(other)).s)
  {
    OneLocalId(s, ref, other);
  }

  lemma ListingChanges(s: State, e: Event, ref: nat)
    requires Inv(s) && Enabled(s, e) && ref < |s.chans|
    ensures ListedNext(s, e, ref, Handle(s, e).s)
  {
    assert NumberedAt(s, ref);
    match e {
      case Operator(conn, got) => OperatorListing(s, conn, got, ref);
      case Client(f) => ClientListing(s, f, ref);
      case Wake(conn, timedOut) => WakeListing(s, conn, timedOut, ref);
      case TcpEnd(other) => TcpListing(s, other, ref);
      case _ =>
    }
  }

  lemma OperatorListing(s: State, conn: nat, got: FromOperator, ref: nat)
    requires Inv(s) && Enabled(s, Operator(conn, got)) && ref < |s.chans| && NumberedAt(s, ref)
    ensures var t := OnOperator(s, conn, got).s; ref < |t.chans|
    ensures Listed(OnOperator(s, conn, got).s, ref) <==> Listed(s, ref) && !Delists(s, Operator(conn, got), ref)
  {
    if !got.ChannelOpen? && got.localId in s.conns[conn].channels {
      var other := s.conns[conn].channels[got.localId];
      ListedAs(s, conn, got.localId);
      OneLocalId(s, ref, other);
      ChannelListing(s, other, got, ref);
    }
  }

  lemma ChannelListing(s: State, other: nat, got: FromOperator, ref: nat)
    requires IsChannel(s, other) && ref < |s.chans| && !got.ChannelOpen? && got.localId == s.chans[other].localId && Listed(s, other)
    requires s.chans[ref].conn == s.chans[other].conn && s.chans[ref].localId == s.chans[other].localId ==> ref == other
    ensures var t := OnChannel(s, other, got).s;
      ref < |t.chans| && (Listed(t, ref) <==> Listed(s, ref) && !((got.GotClose? || got.GotFailure?) && ref == other))
  {}

  lemma RemoteCloseListing(s: State, other: nat, ref: nat)
    requires IsChannel(s, other) && ref < |s.chans| && s.chans[ref].conn in s.conns
    requires s.chans[ref].conn == s.chans[other].conn && s.chans[ref].localId == s.chans[other].localId ==> ref == other
    ensures var t := RemoteClose(s, other).s;
      ref < |t.chans| && (Listed(t, ref) <==> Listed(s, ref) && !(ref == other && HasRecipient(s, ref)))
  {}

  lemma ClientListing(s: State, f: FromClient, ref: nat)
    requires Inv(s) && ref < |s.chans| && NumberedAt(s, ref)
    ensures ListedNext(s, Client(f), ref, OnClient(s, f).s)
  {
    if f.SentClose? && f.id in s.client {
      StoredAs(s, f.id);
      OneLocalId(s, ref, s.client[f.id]);
      RemoteCloseListing(s, s.client[f.id], ref);
    } else if !f.Confirm? && f.id in s.client {
      StoredAs(s, f.id);
    }
  }

  // t has what becomes of the channel: its number at the operator is the one from the open that is
  // granted, or from the confirmation that reaches it; it is marked closed when the CLOSE of either
  // side reaches it, its open is given up, or its TCP connection ends after it was confirmed; and the
  // thread of a forwarded channel waits until it is told, reads, and ends.
  predicate Becomes(s: State, e: Event, ref: nat, t: State)
    requires ref < |s.chans|
  {
    && ref < |t.chans| && t.chans[ref].conn == s.chans[ref].conn && t.chans[ref].localId == s.chans[ref].localId
    && t.chans[ref].recipient
       == (if IsGranted(s, e, ref) then Some(s.conns[e.conn].opening.value.sender)
           else if Reaches(s, e, ref) && e.got.GotConfirmation? then Some(e.got.sender)
           else s.chans[ref].recipient)
    && (t.chans[ref].closed <==>
          s.chans[ref].closed || (Reaches(s, e, ref) && e.got.GotClose?) || ClosedByClient(s, e, ref) || e == GiveUp(ref)
          || (e == TcpEnd(ref) && HasRecipient(s, ref)))
    && t.chans[ref].kind
       == (if s.chans[ref].kind.Remote? then s.chans[ref].kind
           else if e == GiveUp(ref) || e == TcpEnd(ref) then Forwarded(Ended)
           else if e == Start(ref) then Forwarded(Reading)
           else if Reaches(s, e, ref) && e.got.GotConfirmation? && s.chans[ref].kind.phase.Waiting? then Forwarded(Waiting(true))
           else if Reaches(s, e, ref) && e.got.GotFailure? && s.chans[ref].kind.phase.Waiting? then Forwarded(Waiting(false))
           else s.chans[ref].kind)
  }

  lemma ReachedChannel(s: State, conn: nat, got: FromOperator, other: nat, ref: nat)
    requires IsChannel(s, other) && ref < |s.chans| && !got.ChannelOpen? && conn in s.conns
    requires Find(s.conns[conn].channels, got.localId) == Some(other)
    ensures Becomes(s, Operator(conn, got), ref, OnChannel(s, other, got).s)
  {}

  lemma OperatorChanges(s: State, conn: nat, got: FromOperator, ref: nat)
    requires Inv(s) && Enabled(s, Operator(conn, got)) && ref < |s.chans|
    ensures Becomes(s, Operator(conn, got), ref, OnOperator(s, conn, got).s)
  {
    if !got.ChannelOpen? && got.localId in s.conns[conn].channels {
      ListedAs(s, conn, got.localId);
      ReachedChannel(s, conn, got, s.conns[conn].channels[got.localId], ref);
    }
  }

  lemma RemoteCloseChanges(s: State, id: nat, other: nat, ref: nat)
    requires IsChannel(s, other) && ref < |s.chans| && Find(s.client, id) == Some(other)
    ensures Becomes(s, Client(SentClose(id)), ref, RemoteClose(s, other).s)
  {}

  lemma SameBecomes(s: State, f: FromClient, ref: nat, t: State)
    requires ref < |s.chans| && t.chans == s.chans && !(f.SentClose? && Find(s.client, f.id) == Some(ref))
    ensures Becomes(s, Client(f), ref, t)
  {}

  lemma ClientChanges(s: State, f: FromClient, ref: nat)
    requires Inv(s) && ref < |s.chans|
    ensures Becomes(s, Client(f), ref, OnClient(s, f).s)
  {
    if f.SentClose? && f.id in s.client {
      StoredAs(s, f.id);
      RemoteCloseChanges(s, f.id, s.client[f.id], ref);
    } else {
      if !f.Confirm? && f.id in s.client { StoredAs(s, f.id); }
      SameBecomes(s, f, ref, OnClient(s, f).s);
    }
  }

  lemma WakeChanges(s: State, conn: nat, timedOut: bool, ref: nat)
    requires Inv(s) && Enabled(s, Wake(conn, timedOut)) && ref < |s.chans|
    ensures Becomes(s, Wake(conn, timedOut), ref, Handle(s, Wake(conn, timedOut)).s)
  {
    OpeningAs(s, conn);
  }

  // What becomes of a channel in one step, whatever happens.
  lemma ChannelChanges(s: State, e: Event, ref: nat)
    requires Inv(s) && Enabled(s, e) && ref < |s.chans|
    ensures Becomes(s, e, ref, Handle(s, e).s)
  {
    match e {
      case Operator(conn, got) => OperatorChanges(s, conn, got, ref);
      case Client(f) => ClientChanges(s, f, ref);
      case Wake(conn, timedOut) => WakeChanges(s, conn, timedOut, ref);
      case _ =>
    }
  }

  // An id is stored for the client from the open on, until either side closes the channel or its open
  // is refused.
  predicate StoredNext(s: State, e: Event, id: nat, t: State) {
    id in t.client <==> (id in s.client && !Forgets(s, e, id)) || (id == s.counter && e.Operator? && e.got.ChannelOpen? && e.got.supported)
  }

  lemma OperatorStoring(s: State, conn: nat, got: FromOperator, id: nat)
    requires Inv(s) && Enabled(s, Operator(conn, got))
    ensures StoredNext(s, Operator(conn, got), id, OnOperator(s, conn, got).s)
  {
    if !got.ChannelOpen? && got.localId in s.conns[conn].channels { ListedAs(s, conn, got.localId); }
  }

  lemma WakeStoring(s: State, conn: nat, timedOut: bool, id: nat)
    requires Inv(s) && Enabled(s, Wake(conn, timedOut))
    ensures StoredNext(s, Wake(conn, timedOut), id, Handle(s, Wake(conn, timedOut)).s)
  {
    OpeningAs(s, conn);
    assert OpeningAt(s, conn);
  }

  lemma StoringChanges(s: State, e: Event, id: nat)
    requires Inv(s) && Enabled(s, e)
    ensures StoredNext(s, e, id, Handle(s, e).s)
  {
    match e {
      case Operator(conn, got) => OperatorStoring(s, conn, got, id);
      case Client(f) => if !f.Confirm? && f.id in s.client { StoredAs(s, f.id); }
      case Wake(conn, timedOut) => WakeStoring(s, conn, timedOut, id);
      case _ =>
    }
  }

  // What the id is stored for, closed or refused.
  predicate Forgets(s: State, e: Event, id: nat) {
    || (e.Operator? && e.got.GotClose? && e.conn in s.conns && e.got.localId in s.conns[e.conn].channels
        && IsWithId(s, s.conns[e.conn].channels[e.got.localId], id))
    || e == Client(SentClose(id))
    || (e.Wake? && e.conn in s.conns && s.conns[e.conn].opening.Some? && IsRefused(s, e, s.conns[e.conn].opening.value.ref)
        && IsWithId(s, s.conns[e.conn].opening.value.ref, id))
  }

  predicate IsWithId(s: State, ref: nat, id: nat) {
    ref < |s.chans| && s.chans[ref].kind == Remote(id)
  }

  // A new channel comes with an open of the operator, under the next id of the client, and with an
  // accepted TCP connection, listed at once; both take the next id of their connection.
  lemma NewChannels(s: State, e: Event)
    requires Inv(s) && Enabled(s, e)
    ensures var t := Handle(s, e).s;
      if e.Operator? && e.got.ChannelOpen? && e.got.supported then
        t.chans == s.chans + [Channel(e.conn, s.conns[e.conn].nextId, Remote(s.counter), None, false)]
        && !Listed(t, |s.chans|) && s.counter in t.client && t.client[s.counter] == |s.chans|
        && t.conns[e.conn].opening == Some(Opening(|s.chans|, e.got.sender, None))
        && s.counter in t.pending && t.pending[s.counter] == e.conn
      else if e.Accept? then
        t.chans == s.chans + [Channel(e.conn, s.conns[e.conn].nextId, Forwarded(Waiting(false)), None, false)]
        && Listed(t, |s.chans|)
      else |t.chans| == |s.chans|
  {
    match e {
      case Operator(conn, got) =>
        NextIdUnlisted(s, conn);
        if !got.ChannelOpen? && got.localId in s.conns[conn].channels { ListedAs(s, conn, got.localId); }
      case Client(f) => if !f.Confirm? && f.id in s.client { StoredAs(s, f.id); }
      case Wake(conn, timedOut) => OpeningAs(s, conn);
      case _ =>
    }
  }
}
