/** What every run of the channel router keeps: ids, routing and answers. */
module RelayRouting {
  import opened Wrappers
  import opened Bits
  import opened ChannelMessages
  import opened RelayMux
  import opened Runs

  // ------------------------------------------------------------- invariant

  // Ids are taken from counters that only grow, ...
  ghost predicate NumberedAt(s: State, ref: nat)
    requires ref < |s.chans|
  {
    var ch := s.chans[ref];
    ch.conn in s.conns && ch.localId < s.conns[ch.conn].nextId && (ch.kind.Remote? ==> ch.kind.remoteId < s.counter)
  }

  // ... so no two channels share one.
  ghost predicate Apart(a: Channel, b: Channel) {
    && (a.conn == b.conn ==> a.localId != b.localId)
    && (a.kind.Remote? && b.kind.Remote? ==> a.kind.remoteId != b.kind.remoteId)
  }

  // The client's dictionary maps an id to the open channel with that id.
  ghost predicate ClientAt(s: State, id: nat)
    requires id in s.client
  {
    s.client[id] < |s.chans| && s.chans[s.client[id]].kind == Remote(id) && !s.chans[s.client[id]].closed
  }

  // A relayed channel is stored for the client under its remote id unless it has been closed.
  ghost predicate Stored(s: State, ref: nat)
    requires ref < |s.chans|
  {
    var ch := s.chans[ref];
    ch.kind.Remote? && (ch.closed || (ch.kind.remoteId in s.client && s.client[ch.kind.remoteId] == ref))
  }

  // A connection maps a local id to its own channel with that id.
  ghost predicate ListedAt(s: State, conn: nat, l: nat)
    requires conn in s.conns && l in s.conns[conn].channels
  {
    var ref := s.conns[conn].channels[l];
    && ref < |s.chans| && s.chans[ref].conn == conn && s.chans[ref].localId == l
    && (s.chans[ref].kind.Remote? ==> Stored(s, ref) && s.chans[ref].recipient.Some?)
  }

  // A channel being opened belongs to the waiting connection and is not listed yet.
  ghost predicate OpeningAt(s: State, conn: nat)
    requires conn in s.conns && s.conns[conn].opening.Some?
  {
    var c := s.conns[conn];
    var ref := c.opening.value.ref;
    && ref < |s.chans| && Stored(s, ref) && s.chans[ref].conn == conn && s.chans[ref].recipient.None?
    && s.chans[ref].localId !in c.channels
    && (c.opening.value.answer.None? ==> s.chans[ref].kind.remoteId in s.pending && s.pending[s.chans[ref].kind.remoteId] == conn)
  }

  // An answer that is awaited is awaited by the connection that is opening that channel.
  ghost predicate PendingAt(s: State, id: nat)
    requires id in s.pending
  {
    && s.pending[id] in s.conns && s.conns[s.pending[id]].opening.Some?
    && var o := s.conns[s.pending[id]].opening.value;
       o.answer.None? && o.ref < |s.chans| && s.chans[o.ref].kind == Remote(id)
  }

  ghost predicate Inv(s: State) {
    && (forall ref :: 0 <= ref < |s.chans| ==> NumberedAt(s, ref))
    && (forall a, b :: 0 <= a < b < |s.chans| ==> Apart(s.chans[a], s.chans[b]))
    && (forall id :: id in s.client ==> ClientAt(s, id))
    && (forall conn, l :: conn in s.conns && l in s.conns[conn].channels ==> ListedAt(s, conn, l))
    && (forall conn :: conn in s.conns && s.conns[conn].opening.Some? ==> OpeningAt(s, conn))
    && (forall id :: id in s.pending ==> PendingAt(s, id))
  }

  lemma SameRemoteId(s: State, a: nat, b: nat)
    requires Inv(s) && a < |s.chans| && b < |s.chans| && s.chans[a].kind.Remote? && s.chans[b].kind == s.chans[a].kind
    ensures a == b
  {
    assert a < b ==> Apart(s.chans[a], s.chans[b]);
    assert b < a ==> Apart(s.chans[b], s.chans[a]);
  }

  // ------------------------------------------------------ kept by every step

  ghost predicate ChannelAfter(a: Channel, b: Channel) {
    && b.conn == a.conn && b.localId == a.localId && (a.closed ==> b.closed) && (a.recipient.Some? ==> b.recipient.Some?)
    && (if a.kind.Remote? then b.kind == a.kind else b.kind.Forwarded?)
  }

  ghost predicate ConnectionAfter(a: Connection, b: Connection) {
    && b.nextId == a.nextId && b.opening == a.opening
    && forall l :: l in b.channels ==> l in a.channels && b.channels[l] == a.channels[l]
  }

  // t comes from s by closing and delisting channels and by setting recipients.
  ghost predicate Shrunk(s: State, t: State) {
    && t.counter == s.counter && t.pending == s.pending && |t.chans| == |s.chans| && t.conns.Keys == s.conns.Keys
    && (forall ref :: 0 <= ref < |s.chans| ==> ChannelAfter(s.chans[ref], t.chans[ref]))
    && (forall conn :: conn in s.conns ==> ConnectionAfter(s.conns[conn], t.conns[conn]))
    && (forall id :: id in t.client ==> id in s.client && t.client[id] == s.client[id])
    && (forall id :: id in s.client && s.client[id] < |s.chans| ==> (id in t.client <==> !t.chans[s.client[id]].closed))
    && (forall conn :: conn in s.conns && s.conns[conn].opening.Some? && s.conns[conn].opening.value.ref < |s.chans| ==>
          t.chans[s.conns[conn].opening.value.ref].recipient == s.chans[s.conns[conn].opening.value.ref].recipient)
  }

  lemma ShrunkStored(s: State, t: State, ref: nat)
    requires Inv(s) && Shrunk(s, t) && ref < |s.chans| && Stored(s, ref)
    ensures Stored(t, ref)
  {
    assert ChannelAfter(s.chans[ref], t.chans[ref]);
  }

  lemma ShrunkKeeps(s: State, t: State)
    requires Inv(s) && Shrunk(s, t)
    ensures Inv(t)
  {
    forall ref | 0 <= ref < |t.chans|
      ensures NumberedAt(t, ref)
    {
      assert NumberedAt(s, ref) && ChannelAfter(s.chans[ref], t.chans[ref]);
      assert ConnectionAfter(s.conns[s.chans[ref].conn], t.conns[s.chans[ref].conn]);
    }
    forall a, b | 0 <= a < b < |t.chans|
      ensures Apart(t.chans[a], t.chans[b])
    {
      assert Apart(s.chans[a], s.chans[b]);
      assert ChannelAfter(s.chans[a], t.chans[a]) && ChannelAfter(s.chans[b], t.chans[b]);
    }
    forall id | id in t.client
      ensures ClientAt(t, id)
    {
      assert ClientAt(s, id) && ChannelAfter(s.chans[s.client[id]], t.chans[s.client[id]]);
    }
    forall conn, l | conn in t.conns && l in t.conns[conn].channels
      ensures ListedAt(t, conn, l)
    {
      assert ConnectionAfter(s.conns[conn], t.conns[conn]);
      assert ListedAt(s, conn, l);
      var ref := s.conns[conn].channels[l];
      assert ChannelAfter(s.chans[ref], t.chans[ref]);
      if s.chans[ref].kind.Remote? { ShrunkStored(s, t, ref); }
    }
    forall conn | conn in t.conns && t.conns[conn].opening.Some?
      ensures OpeningAt(t, conn)
    {
      assert ConnectionAfter(s.conns[conn], t.conns[conn]);
      assert OpeningAt(s, conn);
      var ref := s.conns[conn].opening.value.ref;
      assert ChannelAfter(s.chans[ref], t.chans[ref]);
      ShrunkStored(s, t, ref);
    }
    forall id | id in t.pending
      ensures PendingAt(t, id)
    {
      assert PendingAt(s, id);
      var conn := s.pending[id];
      assert ConnectionAfter(s.conns[conn], t.conns[conn]);
      assert ChannelAfter(s.chans[s.conns[conn].opening.value.ref], t.chans[s.conns[conn].opening.value.ref]);
    }
  }

  // One channel changed, and possibly delisted and forgotten.
  lemma OneChannelShrinks(s: State, t: State, ref: nat, ch: Channel, delist: set<nat>, forget: set<nat>)
    requires Inv(s) && IsChannel(s, ref) && ChannelAfter(s.chans[ref], ch)
    requires t == State(s.counter, s.pending, s.client - forget,
      s.conns[ch.conn := s.conns[ch.conn].(channels := s.conns[ch.conn].channels - delist)], s.chans[ref := ch])
    requires forall id :: id in s.client && s.client[id] < |s.chans| ==>
      (id in forget <==> s.client[id] == ref && ch.closed)
    requires s.chans[ref].recipient != ch.recipient ==>
      forall conn :: conn in s.conns && s.conns[conn].opening.Some? ==> s.conns[conn].opening.value.ref != ref
    ensures Shrunk(s, t)
  {
    forall id | id in s.client && s.client[id] < |s.chans|
      ensures id in t.client <==> !t.chans[s.client[id]].closed
    {
      assert ClientAt(s, id);
    }
  }

  lemma UnchangedShrinks(s: State)
    requires Inv(s)
    ensures Shrunk(s, s)
  {
    forall id | id in s.client && s.client[id] < |s.chans|
      ensures !s.chans[s.client[id]].closed
    {
      assert ClientAt(s, id);
    }
  }

  // t has one more channel, with ids that no channel had before.
  ghost predicate Grown(s: State, t: State, conn: nat) {
    && conn in s.conns && t.conns.Keys == s.conns.Keys && |t.chans| == |s.chans| + 1 && t.chans[..|s.chans|] == s.chans
    && (forall k :: k in s.conns ==> t.conns[k].nextId == if k == conn then s.conns[k].nextId + 1 else s.conns[k].nextId)
    && var ch := t.chans[|s.chans|];
       ch.conn == conn && ch.localId == s.conns[conn].nextId
       && (if ch.kind.Remote? then ch.kind.remoteId == s.counter && t.counter == s.counter + 1 else t.counter == s.counter)
  }

  lemma GrownNumbers(s: State, t: State, conn: nat)
    requires Inv(s) && Grown(s, t, conn)
    ensures forall ref :: 0 <= ref < |t.chans| ==> NumberedAt(t, ref)
    ensures forall a, b :: 0 <= a < b < |t.chans| ==> Apart(t.chans[a], t.chans[b])
    ensures forall ref :: 0 <= ref < |s.chans| ==> t.chans[ref] == s.chans[ref]
  {
    assert forall ref :: 0 <= ref < |s.chans| ==> t.chans[ref] == t.chans[..|s.chans|][ref];
    forall ref | 0 <= ref < |t.chans|
      ensures NumberedAt(t, ref)
    {
      if ref < |s.chans| { assert NumberedAt(s, ref); }
    }
    forall a, b | 0 <= a < b < |t.chans|
      ensures Apart(t.chans[a], t.chans[b])
    {
      assert NumberedAt(s, a);
      if b < |s.chans| { assert Apart(s.chans[a], s.chans[b]); }
    }
  }

  // A fresh local id is not listed.
  lemma NextIdUnlisted(s: State, conn: nat)
    requires Inv(s) && conn in s.conns
    ensures s.conns[conn].nextId !in s.conns[conn].channels
  {
    forall l | l in s.conns[conn].channels
      ensures l < s.conns[conn].nextId
    {
      assert ListedAt(s, conn, l) && NumberedAt(s, s.conns[conn].channels[l]);
    }
  }

  // What was stored or listed stays so.
  lemma GrownStored(s: State, t: State, conn: nat, ref: nat)
    requires Inv(s) && Grown(s, t, conn) && ref < |s.chans| && Stored(s, ref)
    requires forall id :: id in s.client && id < s.counter ==> id in t.client && t.client[id] == s.client[id]
    ensures Stored(t, ref)
  {
    assert NumberedAt(s, ref);
    assert t.chans[ref] == t.chans[..|s.chans|][ref];
  }

  lemma GrownListed(s: State, t: State, conn: nat, k: nat, l: nat)
    requires Inv(s) && Grown(s, t, conn) && k in s.conns && l in s.conns[k].channels
    requires l in t.conns[k].channels && t.conns[k].channels[l] == s.conns[k].channels[l]
    requires forall id :: id in s.client && id < s.counter ==> id in t.client && t.client[id] == s.client[id]
    ensures ListedAt(t, k, l)
  {
    assert ListedAt(s, k, l);
    var ref := s.conns[k].channels[l];
    assert t.chans[ref] == t.chans[..|s.chans|][ref];
    if s.chans[ref].kind.Remote? { GrownStored(s, t, conn, ref); }
  }

  lemma GrownOpening(s: State, t: State, conn: nat, k: nat)
    requires Inv(s) && Grown(s, t, conn) && k in s.conns && s.conns[k].opening.Some? && t.conns[k].opening == s.conns[k].opening
    requires forall id :: id in s.client && id < s.counter ==> id in t.client && t.client[id] == s.client[id]
    requires forall id :: id in s.pending && id < s.counter ==> id in t.pending && t.pending[id] == s.pending[id]
    requires forall l :: l in t.conns[k].channels ==> l in s.conns[k].channels || (k == conn && l == s.conns[k].nextId)
    ensures OpeningAt(t, k)
  {
    assert OpeningAt(s, k);
    var ref := s.conns[k].opening.value.ref;
    assert NumberedAt(s, ref);
    assert t.chans[ref] == t.chans[..|s.chans|][ref];
    GrownStored(s, t, conn, ref);
  }

  // The dictionaries of t are those of s, and at most the new channel besides.
  ghost predicate GrownByOne(s: State, t: State, conn: nat)
    requires Grown(s, t, conn)
  {
    var ref := |s.chans|;
    var ch := t.chans[ref];
    && (forall id :: id in t.client ==>
          if id in s.client && id != s.counter then t.client[id] == s.client[id]
          else id == s.counter && t.client[id] == ref && ch.kind == Remote(id) && !ch.closed)
    && (forall id :: id in s.client && id < s.counter ==> id in t.client)
    && (forall k, l :: k in t.conns && l in t.conns[k].channels ==>
          if l in s.conns[k].channels then t.conns[k].channels[l] == s.conns[k].channels[l]
          else k == conn && l == ch.localId && t.conns[k].channels[l] == ref && ch.kind.Forwarded?)
    && (forall k :: k in s.conns && s.conns[k].opening.Some? ==> t.conns[k].opening == s.conns[k].opening)
    && (forall k :: k in t.conns && t.conns[k].opening.Some? && s.conns[k].opening.None? ==>
          k == conn && t.conns[k].opening.value.ref == ref && OpeningAt(t, k) && s.conns[k].channels == t.conns[k].channels)
    && (forall id :: id in s.pending && id < s.counter ==> id in t.pending && t.pending[id] == s.pending[id])
    && (forall id :: id in t.pending ==>
          if id in s.pending && id != s.counter then t.pending[id] == s.pending[id] else PendingAt(t, id))
  }

  lemma GrownKeeps(s: State, t: State, conn: nat)
    requires Inv(s) && Grown(s, t, conn) && GrownByOne(s, t, conn)
    ensures Inv(t)
  {
    GrownNumbers(s, t, conn);
    forall id | id in t.client
      ensures ClientAt(t, id)
    {
      if id in s.client { assert ClientAt(s, id); }
    }
    forall k, l | k in t.conns && l in t.conns[k].channels
      ensures ListedAt(t, k, l)
    {
      if l in s.conns[k].channels { GrownListed(s, t, conn, k, l); }
    }
    forall k | k in t.conns && t.conns[k].opening.Some?
      ensures OpeningAt(t, k)
    {
      if s.conns[k].opening.Some? { GrownOpening(s, t, conn, k); }
    }
    forall id | id in t.pending
      ensures PendingAt(t, id)
    {
      if id in s.pending && id != s.counter { assert PendingAt(s, id); }
    }
  }

  lemma CounterIsAhead(s: State)
    requires Inv(s)
    ensures forall id :: id in s.client || id in s.pending ==> id < s.counter
  {
    forall id | id in s.client || id in s.pending
      ensures id < s.counter
    {
      if id in s.client { assert ClientAt(s, id) && NumberedAt(s, s.client[id]); }
      if id in s.pending { assert PendingAt(s, id) && NumberedAt(s, s.conns[s.pending[id]].opening.value.ref); }
    }
  }

  lemma OpeningStarts(s: State, conn: nat, sender: nat)
    requires conn in s.conns && s.conns[conn].nextId !in s.conns[conn].channels
    ensures var t := StartOpen(s, conn, sender).s;
      t.conns[conn].opening == Some(Opening(|s.chans|, sender, None)) && OpeningAt(t, conn) && PendingAt(t, s.counter)
  {}

  lemma StartOpenKeeps(s: State, conn: nat, sender: nat)
    requires Inv(s) && conn in s.conns && s.conns[conn].opening.None?
    ensures Inv(StartOpen(s, conn, sender).s)
  {
    NextIdUnlisted(s, conn);
    CounterIsAhead(s);
    OpeningStarts(s, conn, sender);
    GrownKeeps(s, StartOpen(s, conn, sender).s, conn);
  }

  lemma AcceptKeeps(s: State, conn: nat)
    requires Inv(s) && conn in s.conns
    ensures Inv(Accepted(s, conn).s)
  {
    NextIdUnlisted(s, conn);
    CounterIsAhead(s);
    GrownKeeps(s, Accepted(s, conn).s, conn);
  }

  lemma ConnectKeeps(s: State, conn: nat)
    requires Inv(s) && conn !in s.conns
    ensures Inv(Connected(s, conn))
  {
    var t := Connected(s, conn);
    forall ref | 0 <= ref < |t.chans|
      ensures NumberedAt(t, ref)
    {
      assert NumberedAt(s, ref);
    }
    forall id | id in t.client
      ensures ClientAt(t, id)
    {
      assert ClientAt(s, id);
    }
    forall ref: nat | ref < |s.chans| && Stored(s, ref)
      ensures Stored(t, ref)
    {}
    forall k, l | k in t.conns && l in t.conns[k].channels
      ensures ListedAt(t, k, l)
    {
      assert ListedAt(s, k, l);
    }
    forall k | k in t.conns && t.conns[k].opening.Some?
      ensures OpeningAt(t, k)
    {
      assert OpeningAt(s, k);
    }
    forall id | id in t.pending
      ensures PendingAt(t, id)
    {
      assert PendingAt(s, id);
    }
  }

  // An answer reaches the connection that waits for it, and no other.
  lemma AnsweredKeeps(s: State, id: nat, ok: bool)
    requires Inv(s) && CanAnswer(s, id)
    ensures Inv(Answered(s, id, ok))
  {
    assert PendingAt(s, id);
    var t, conn := Answered(s, id, ok), s.pending[id];
    forall ref | 0 <= ref < |t.chans|
      ensures NumberedAt(t, ref)
    {
      assert NumberedAt(s, ref);
    }
    forall k | k in t.client
      ensures ClientAt(t, k)
    {
      assert ClientAt(s, k);
    }
    forall ref: nat | ref < |s.chans| && Stored(s, ref)
      ensures Stored(t, ref)
    {}
    forall k, l | k in t.conns && l in t.conns[k].channels
      ensures ListedAt(t, k, l)
    {
      assert ListedAt(s, k, l);
    }
    forall k | k in t.conns && t.conns[k].opening.Some?
      ensures OpeningAt(t, k)
    {
      assert OpeningAt(s, k);
    }
    forall k | k in t.pending
      ensures PendingAt(t, k)
    {
      assert PendingAt(s, k);
    }
  }

  lemma OpenFailedKeeps(s: State, conn: nat, timedOut: bool)
    requires Inv(s) && conn in s.conns && s.conns[conn].opening.Some? && OpeningAt(s, conn)
    requires !timedOut ==> s.conns[conn].opening.value.answer.Some?
    ensures Inv(OpenFailed(s, conn, timedOut).s)
  {
    var t, o := OpenFailed(s, conn, timedOut).s, s.conns[conn].opening.value;
    var id := s.chans[o.ref].kind.remoteId;
    forall ref | 0 <= ref < |t.chans|
      ensures NumberedAt(t, ref)
    {
      assert NumberedAt(s, ref);
    }
    forall k | k in t.client
      ensures ClientAt(t, k)
    {
      assert ClientAt(s, k);
    }
    forall ref: nat | ref < |s.chans| && ref != o.ref && Stored(s, ref)
      ensures Stored(t, ref) && s.chans[ref].kind.remoteId != id
    {
      assert ref < o.ref ==> Apart(s.chans[ref], s.chans[o.ref]);
      assert ref > o.ref ==> Apart(s.chans[o.ref], s.chans[ref]);
    }
    forall k, l | k in t.conns && l in t.conns[k].channels
      ensures ListedAt(t, k, l)
    {
      assert ListedAt(s, k, l);
    }
    forall k | k in t.conns && t.conns[k].opening.Some?
      ensures OpeningAt(t, k)
    {
      assert OpeningAt(s, k);
    }
    forall k | k in t.pending
      ensures PendingAt(t, k)
    {
      assert PendingAt(s, k);
    }
  }

  lemma OpenGrantedKeeps(s: State, conn: nat)
    requires Inv(s) && conn in s.conns && s.conns[conn].opening.Some? && OpeningAt(s, conn)
    requires s.conns[conn].opening.value.answer.Some?
    ensures Inv(OpenGranted(s, conn).s)
  {
    var t, o := OpenGranted(s, conn).s, s.conns[conn].opening.value;
    forall ref | 0 <= ref < |t.chans|
      ensures NumberedAt(t, ref)
    {
      assert NumberedAt(s, ref);
    }
    forall a, b | 0 <= a < b < |t.chans|
      ensures Apart(t.chans[a], t.chans[b])
    {
      assert Apart(s.chans[a], s.chans[b]);
    }
    forall k | k in t.client
      ensures ClientAt(t, k)
    {
      assert ClientAt(s, k);
    }
    forall ref: nat | ref < |s.chans| && Stored(s, ref)
      ensures Stored(t, ref)
    {}
    forall k, l | k in t.conns && l in t.conns[k].channels
      ensures ListedAt(t, k, l)
    {
      if l in s.conns[k].channels { assert ListedAt(s, k, l); }
    }
    forall k | k in t.conns && t.conns[k].opening.Some?
      ensures OpeningAt(t, k)
    {
      assert OpeningAt(s, k);
    }
    forall k | k in t.pending
      ensures PendingAt(t, k)
    {
      assert PendingAt(s, k);
    }
  }

  // A channel that is listed, or forwarded, is not one that is being opened.
  lemma NotOpening(s: State, ref: nat)
    requires Inv(s) && IsChannel(s, ref)
    requires s.chans[ref].kind.Forwarded? || s.chans[ref].recipient.Some?
    ensures forall conn :: conn in s.conns && s.conns[conn].opening.Some? ==> s.conns[conn].opening.value.ref != ref
  {
    forall conn | conn in s.conns && s.conns[conn].opening.Some?
      ensures s.conns[conn].opening.value.ref != ref
    {
      assert OpeningAt(s, conn);
    }
  }

  // Which ids of the client belong to a channel.
  lemma ClientIds(s: State, ref: nat)
    requires Inv(s) && IsChannel(s, ref)
    ensures forall id :: id in s.client && s.client[id] == ref ==> s.chans[ref].kind == Remote(id) && !s.chans[ref].closed
    ensures s.chans[ref].kind.Remote? && s.chans[ref].kind.remoteId in s.client ==> s.client[s.chans[ref].kind.remoteId] == ref
  {
    forall id | id in s.client && s.client[id] == ref
      ensures s.chans[ref].kind == Remote(id) && !s.chans[ref].closed
    {
      assert ClientAt(s, id);
    }
    if s.chans[ref].kind.Remote? && s.chans[ref].kind.remoteId in s.client {
      assert ClientAt(s, s.chans[ref].kind.remoteId);
      SameRemoteId(s, ref, s.client[s.chans[ref].kind.remoteId]);
    }
  }

  lemma ConfirmationShrinks(s: State, ref: nat, got: FromOperator)
    requires Inv(s) && IsChannel(s, ref) && got.GotConfirmation?
    requires s.chans[ref].kind.Forwarded? || s.chans[ref].recipient.Some?
    ensures Shrunk(s, OnChannel(s, ref, got).s)
  {
    NotOpening(s, ref);
    ClientIds(s, ref);
    var t := OnChannel(s, ref, got).s;
    assert s.conns[s.chans[ref].conn].channels - {} == s.conns[s.chans[ref].conn].channels && s.client - {} == s.client;
    OneChannelShrinks(s, t, ref, t.chans[ref], {}, {});
  }

  lemma FailureShrinks(s: State, ref: nat, got: FromOperator)
    requires Inv(s) && IsChannel(s, ref) && got.GotFailure?
    ensures Shrunk(s, OnChannel(s, ref, got).s)
  {
    ClientIds(s, ref);
    var t := OnChannel(s, ref, got).s;
    assert s.client - {} == s.client;
    OneChannelShrinks(s, t, ref, t.chans[ref], {got.localId}, {});
  }

  lemma CloseShrinks(s: State, ref: nat, got: FromOperator)
    requires Inv(s) && IsChannel(s, ref) && got.GotClose?
    ensures Shrunk(s, OnChannel(s, ref, got).s)
  {
    ClientIds(s, ref);
    var t, kind := OnChannel(s, ref, got).s, s.chans[ref].kind;
    assert s.client - {} == s.client;
    OneChannelShrinks(s, t, ref, t.chans[ref], {got.localId}, if kind.Remote? then {kind.remoteId} else {});
  }

  lemma OnChannelShrinks(s: State, conn: nat, ref: nat, got: FromOperator)
    requires Inv(s) && conn in s.conns && !got.ChannelOpen? && got.localId in s.conns[conn].channels
    requires ref == s.conns[conn].channels[got.localId] && IsChannel(s, ref)
    ensures Shrunk(s, OnChannel(s, ref, got).s)
  {
    assert ListedAt(s, conn, got.localId);
    match got {
      case GotConfirmation(_, _) => ConfirmationShrinks(s, ref, got);
      case GotFailure(_) => FailureShrinks(s, ref, got);
      case GotClose(_) => CloseShrinks(s, ref, got);
      case _ => UnchangedShrinks(s);
    }
  }

  lemma RemoteCloseShrinks(s: State, ref: nat)
    requires Inv(s) && IsChannel(s, ref)
    ensures Shrunk(s, RemoteClose(s, ref).s)
  {
    ClientIds(s, ref);
    var t, ch := RemoteClose(s, ref).s, s.chans[ref];
    var same := s.conns[ch.conn].channels - {};
    assert same == s.conns[ch.conn].channels && s.client - {} == s.client;
    OneChannelShrinks(s, t, ref, t.chans[ref], if ch.recipient.Some? then {ch.localId} else {}, if ch.kind.Remote? then {ch.kind.remoteId} else {});
  }

  lemma TcpShrinks(s: State, e: Event)
    requires Inv(s) && Enabled(s, e) && (e.GiveUp? || e.Start? || e.TcpEnd?)
    ensures Shrunk(s, Handle(s, e).s)
  {
    ClientIds(s, e.ref);
    var t, ch := Handle(s, e).s, s.chans[e.ref];
    var same := s.conns[ch.conn].channels - {};
    assert same == s.conns[ch.conn].channels && s.client - {} == s.client;
    OneChannelShrinks(s, t, e.ref, t.chans[e.ref], if e.TcpEnd? && ch.recipient.Some? then {ch.localId} else {}, {});
  }

  // Messages other than those of the open exchange only shrink the state.
  predicate Opens(s: State, e: Event) {
    match e
    case Connect(_) => true
    case Operator(_, got) => got.ChannelOpen? && got.supported
    case Client(f) => f.Confirm? && CanAnswer(s, f.id)
    case Wake(_, _) => true
    case Accept(_) => true
    case _ => false
  }

  lemma OthersShrink(s: State, e: Event)
    requires Inv(s) && Enabled(s, e) && !Opens(s, e)
    ensures Shrunk(s, Handle(s, e).s)
  {
    UnchangedShrinks(s);
    match e {
      case Operator(conn, got) =>
        if !got.ChannelOpen? && got.localId in s.conns[conn].channels {
          assert ListedAt(s, conn, got.localId);
          OnChannelShrinks(s, conn, s.conns[conn].channels[got.localId], got);
        }
      case Client(f) =>
        if !f.Confirm? && f.id in s.client {
          assert ClientAt(s, f.id) && NumberedAt(s, s.client[f.id]);
          if f.SentClose? { RemoteCloseShrinks(s, s.client[f.id]); }
        }
      case TcpData(_, _) =>
      case _ => TcpShrinks(s, e);
    }
  }

  lemma OpensKeeps(s: State, e: Event)
    requires Inv(s) && Enabled(s, e) && Opens(s, e)
    ensures Inv(Handle(s, e).s)
  {
    match e {
      case Connect(conn) => ConnectKeeps(s, conn);
      case Operator(conn, got) => StartOpenKeeps(s, conn, got.sender);
      case Client(f) => AnsweredKeeps(s, f.id, f.ok);
      case Wake(conn, timedOut) =>
        assert OpeningAt(s, conn);
        if timedOut || s.conns[conn].opening.value.answer != Some(true) {
          OpenFailedKeeps(s, conn, timedOut);
        } else {
          OpenGrantedKeeps(s, conn);
        }
      case Accept(conn) => AcceptKeeps(s, conn);
    }
  }

  lemma HandleKeeps(s: State, e: Event)
    requires Inv(s) && Enabled(s, e)
    ensures Inv(Handle(s, e).s)
  {
    if Opens(s, e) {
      OpensKeeps(s, e);
    } else {
      OthersShrink(s, e);
      ShrunkKeeps(s, Handle(s, e).s);
    }
  }

  // ------------------------------------------------------------------ runs

  lemma StartConsistent()
    ensures Inv(START) && Keeps(MUX, Inv)
  {
    forall s, e | Inv(s) && Enabled(s, e)
      ensures Inv(MUX.step(s, e).s)
    {
      HandleKeeps(s, e);
    }
  }

  // In every reachable state: dictionary keys are the ids of the channels stored under them, a
  // relayed channel listed for an operator is stored for the client under its remote id
  // exactly unless it has been closed, and no two channels share an id.
  lemma RoutingIsConsistent(events: seq<Event>, conn: nat, l: nat)
    requires Possible(MUX, START, events)
    requires var s := After(MUX, START, events).s; conn in s.conns && l in s.conns[conn].channels
    ensures var s := After(MUX, START, events).s; var ref := s.conns[conn].channels[l];
      && ref < |s.chans| && s.chans[ref].conn == conn && s.chans[ref].localId == l
      && (s.chans[ref].kind.Remote? ==>
            var id := s.chans[ref].kind.remoteId;
            (id in s.client && s.client[id] == ref) <==> !s.chans[ref].closed)
      && forall other :: 0 <= other < |s.chans| && other != ref ==>
           (s.chans[other].conn == conn ==> s.chans[other].localId != l)
           && (s.chans[other].kind.Remote? ==> s.chans[other].kind != s.chans[ref].kind)
  {
    StartConsistent();
    RunKeeps(MUX, Inv, START, events);
    var s := After(MUX, START, events).s;
    assert ListedAt(s, conn, l);
    var ref := s.conns[conn].channels[l];
    assert NumberedAt(s, ref);
    ClientIds(s, ref);
    forall other | 0 <= other < |s.chans| && other != ref
      ensures (s.chans[other].conn == conn ==> s.chans[other].localId != l)
      ensures s.chans[other].kind.Remote? ==> s.chans[other].kind != s.chans[ref].kind
    {
      assert other < ref ==> Apart(s.chans[other], s.chans[ref]);
      assert other > ref ==> Apart(s.chans[ref], s.chans[other]);
    }
  }
}
