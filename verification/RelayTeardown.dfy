/** What one frame can do to all operators of a reverse client: the send loop runs in the thread
    that reads the client's frames, and when it raises, that thread closes the client with every
    channel that is stored for it (relay.py:135-149, 205-252, 277-289). */
module RelayTeardown {
  import opened Wrappers
  import opened Bits
  import opened Framing
  import opened ChannelMessages
  import opened RelayMux
  import opened RelayRouting
  import opened RelayTraces
  import opened Runs
  import Windows

  // list(self.channels): ids are taken from a counter, so they are stored in increasing order.
  function StoredIds(client: map<nat, nat>, lo: nat, hi: nat): (ids: seq<nat>)
    ensures forall id :: id in ids <==> lo <= id < hi && id in client
    ensures forall i :: 0 <= i < |ids| ==> lo <= ids[i]
    ensures forall i, j :: 0 <= i < j < |ids| ==> ids[i] < ids[j]
    decreases hi - lo
  {
    if lo >= hi then [] else (if lo in client then [lo] else []) + StoredIds(client, lo + 1, hi)
  }

  // client_closed is remote_close, so closing a channel is what CHANNEL_CLOSE for its id does.
  function Closings(ids: seq<nat>): seq<Event> {
    seq(|ids|, i requires 0 <= i < |ids| => Client(SentClose(ids[i])))
  }

  function Goodbye(s: State, id: nat): seq<Output> {
    if id in s.client && s.client[id] < |s.chans| then Tell(s, s.client[id], [Close(To(s.chans[s.client[id]]))]) else []
  }

  // One CLOSE for each of the channels that has a number at its operator.
  function Goodbyes(s: State, ids: seq<nat>): seq<Output> {
    if ids == [] then [] else Goodbye(s, ids[0]) + Goodbyes(s, ids[1..])
  }

  predicate Hit(ids: seq<nat>, ch: Channel) {
    ch.kind.Remote? && ch.kind.remoteId in ids
  }

  // t is s with exactly these channels closed, delisted and forgotten.
  ghost predicate TornDown(s: State, ids: seq<nat>, t: State) {
    && t.counter == s.counter && t.pending == s.pending && |t.chans| == |s.chans| && t.conns.Keys == s.conns.Keys
    && (forall id :: id in t.client <==> id in s.client && id !in ids)
    && (forall id :: id in t.client ==> t.client[id] == s.client[id])
    && (forall ref :: 0 <= ref < |s.chans| ==> t.chans[ref] == s.chans[ref].(closed := s.chans[ref].closed || Hit(ids, s.chans[ref])))
    && (forall conn :: conn in s.conns ==> ConnectionTornDown(s, ids, s.conns[conn], t.conns[conn]))
  }

  ghost predicate ConnectionTornDown(s: State, ids: seq<nat>, a: Connection, b: Connection) {
    && b.nextId == a.nextId && b.opening == a.opening
    && (forall l :: l in b.channels <==> l in a.channels && !(a.channels[l] < |s.chans| && Hit(ids, s.chans[a.channels[l]])))
    && (forall l :: l in b.channels ==> b.channels[l] == a.channels[l])
  }

  // The first of the channels.
  lemma FirstCloses(s: State, id: nat)
    requires Inv(s) && id in s.client
    ensures var t := OnClient(s, SentClose(id)); Inv(t.s) && TornDown(s, [id], t.s) && t.outputs == Goodbye(s, id)
  {
    HandleKeeps(s, Client(SentClose(id)));
    StoredAs(s, id);
    var ref := s.client[id];
    var t := OnClient(s, SentClose(id)).s;
    forall r: nat | r < |s.chans|
      ensures Hit([id], s.chans[r]) <==> r == ref
    {
      if Hit([id], s.chans[r]) { SameRemoteId(s, r, ref); }
    }
    forall conn | conn in s.conns
      ensures ConnectionTornDown(s, [id], s.conns[conn], t.conns[conn])
    {
      forall l | l in s.conns[conn].channels
        ensures s.conns[conn].channels[l] < |s.chans|
        ensures s.conns[conn].channels[l] == ref ==> conn == s.chans[ref].conn && l == s.chans[ref].localId && s.chans[ref].recipient.Some?
        ensures conn == s.chans[ref].conn && l == s.chans[ref].localId && s.chans[ref].recipient.Some? ==> s.conns[conn].channels[l] == ref
      {
        assert ListedAt(s, conn, l);
        OneLocalId(s, s.conns[conn].channels[l], ref);
      }
    }
  }

  lemma OneLocalId(s: State, a: nat, b: nat)
    requires Inv(s) && a < |s.chans| && b < |s.chans|
    ensures s.chans[a].conn == s.chans[b].conn && s.chans[a].localId == s.chans[b].localId ==> a == b
  {
    assert a < b ==> Apart(s.chans[a], s.chans[b]);
    assert b < a ==> Apart(s.chans[b], s.chans[a]);
  }

  predicate Increasing(ids: seq<nat>) {
    forall i, j :: 0 <= i < j < |ids| ==> ids[i] < ids[j]
  }

  // What is said to the others does not depend on the ones closed before.
  lemma {:induction false} GoodbyesSame(s: State, t: State, id: nat, ids: seq<nat>)
    requires Inv(s) && id in s.client && TornDown(s, [id], t) && id !in ids
    ensures Goodbyes(t, ids) == Goodbyes(s, ids)
  {
    if ids != [] {
      GoodbyesSame(s, t, id, ids[1..]);
      if ids[0] in s.client { StoredAs(s, ids[0]); }
    }
  }

  lemma TornDownTwice(s: State, id: nat, t: State, ids: seq<nat>, u: State)
    requires TornDown(s, [id], t) && TornDown(t, ids, u)
    ensures TornDown(s, [id] + ids, u)
  {
    forall ref: nat | ref < |s.chans|
      ensures Hit([id] + ids, s.chans[ref]) <==> Hit([id], s.chans[ref]) || Hit(ids, t.chans[ref])
      ensures u.chans[ref] == s.chans[ref].(closed := s.chans[ref].closed || Hit([id] + ids, s.chans[ref]))
    {}
    forall conn | conn in s.conns
      ensures ConnectionTornDown(s, [id] + ids, s.conns[conn], u.conns[conn])
    {
      assert ConnectionTornDown(s, [id], s.conns[conn], t.conns[conn]) && ConnectionTornDown(t, ids, t.conns[conn], u.conns[conn]);
    }
  }

  // What closing these channels has to lead to.
  ghost predicate Closes(s: State, ids: seq<nat>) {
    var t := After(MUX, s, Closings(ids));
    Possible(MUX, s, Closings(ids)) && TornDown(s, ids, t.s) && t.outputs == Goodbyes(s, ids)
  }

  lemma ClosesNext(s: State, t: State, ids: seq<nat>)
    requires ids != [] && OnClient(s, SentClose(ids[0])) == Effect(t, Goodbye(s, ids[0])) && TornDown(s, [ids[0]], t)
    requires Closes(t, ids[1..]) && Goodbyes(t, ids[1..]) == Goodbyes(s, ids[1..])
    ensures Closes(s, ids)
  {
    var e, rest := Client(SentClose(ids[0])), Closings(ids[1..]);
    assert Closings(ids) == [e] + rest && [ids[0]] + ids[1..] == ids;
    StepFirst(MUX, s, e, rest);
    TornDownTwice(s, ids[0], t, ids[1..], After(MUX, t, rest).s);
  }

  lemma OthersAreStored(s: State, t: State, ids: seq<nat>)
    requires ids != [] && Increasing(ids) && TornDown(s, [ids[0]], t) && forall id :: id in ids ==> id in s.client
    ensures ids[0] !in ids[1..] && Increasing(ids[1..]) && forall id :: id in ids[1..] ==> id in t.client
  {}

  lemma ClosesNone(s: State)
    ensures Closes(s, [])
  {
    assert Closings([]) == [];
  }

  // Closing stored channels one after the other closes, delists and forgets exactly these, and
  // tells each operator once.
  lemma {:induction false} ClosingsTearDown(s: State, ids: seq<nat>)
    requires Inv(s) && Increasing(ids) && forall id :: id in ids ==> id in s.client
    ensures Closes(s, ids)
    decreases |ids|
  {
    if ids == [] {
      ClosesNone(s);
    } else {
      var t := OnClient(s, SentClose(ids[0])).s;
      FirstCloses(s, ids[0]);
      OthersAreStored(s, t, ids);
      ClosingsTearDown(t, ids[1..]);
      GoodbyesSame(s, t, ids[0], ids[1..]);
      ClosesNext(s, t, ids);
    }
  }

  lemma AllStored(s: State)
    requires Inv(s)
    ensures var ids := StoredIds(s.client, 0, s.counter); Increasing(ids) && forall id :: id in ids <==> id in s.client
  {
    CounterIsAhead(s);
  }

  // ------------------------------------------------------------ one delivery

  // The send loop raises exactly when not all of the data went out.
  lemma {:induction false} DoneExactly(w: Windows.Window, data: bytes, schedule: Windows.Schedule)
    ensures var t := Windows.Sending(w, data, schedule);
      Concat(t.chunks) <= data && (t.outcome.Done? <==> Concat(t.chunks) == data)
    decreases |data|
  {
    if data != [] {
      var s := Windows.ReserveIn(w, |data|, schedule);
      if s.result.Reserved? {
        var n := s.result.chunk;
        var more := Windows.Sending(s.w, data[n..], s.rest);
        DoneExactly(s.w, data[n..], s.rest);
        assert ([data[..n]] + more.chunks)[1..] == more.chunks;
        assert data == data[..n] + data[n..];
        assert Concat(more.chunks) == (data[..n] + Concat(more.chunks))[n..];
      }
    }
  }

  // What the reader of frames does with data for a channel: send it, and close the client if that
  // raises.
  function Delivery(s: State, id: nat, code: Option<nat>, data: bytes, w: Windows.Window, schedule: Windows.Schedule): seq<Event> {
    var t := Windows.Sending(w, data, schedule);
    [Client(if code.Some? then SentExtended(id, code.value, t.chunks) else SentData(id, t.chunks))]
    + if t.outcome.Done? then [] else Closings(StoredIds(s.client, 0, s.counter))
  }

  // The data cannot all be sent on its channel: that is closed, or its window stays empty until
  // the deadline.
  predicate Stuck(data: bytes, w: Windows.Window, schedule: Windows.Schedule) {
    Concat(Windows.Sending(w, data, schedule).chunks) != data
  }

  lemma DataKeepsState(s: State, id: nat, code: Option<nat>, chunks: seq<bytes>)
    requires Inv(s) && id in s.client
    ensures OnClient(s, if code.Some? then SentExtended(id, code.value, chunks) else SentData(id, chunks))
      == Effect(s, Tell(s, s.client[id], DataMessages(To(s.chans[s.client[id]]), code, chunks)))
  {
    StoredAs(s, id);
  }

  // The frame of the reader, and what is behind it.
  lemma DataFirst(s: State, id: nat, code: Option<nat>, chunks: seq<bytes>, rest: seq<Event>)
    requires Inv(s) && id in s.client && Possible(MUX, s, rest)
    ensures var events := [Client(if code.Some? then SentExtended(id, code.value, chunks) else SentData(id, chunks))] + rest;
      var t := After(MUX, s, rest);
      Possible(MUX, s, events)
      && After(MUX, s, events) == Effect(t.s, Tell(s, s.client[id], DataMessages(To(s.chans[s.client[id]]), code, chunks)) + t.outputs)
  {
    DataKeepsState(s, id, code, chunks);
    StepFirst(MUX, s, Client(if code.Some? then SentExtended(id, code.value, chunks) else SentData(id, chunks)), rest);
  }

  lemma TornDownIsEmpty(s: State, t: State)
    requires Inv(s) && TornDown(s, StoredIds(s.client, 0, s.counter), t)
    ensures t.client == map[]
  {
    AllStored(s);
  }

  // One delivery of data for one channel leaves the client without any channel if and only if the
  // data cannot all be sent: then every channel stored for the client, of whichever operator, is
  // closed and delisted, each operator is told so, and nothing else changes.  Otherwise the state
  // stays as it is.
  lemma OneDeliveryClosesAll(s: State, id: nat, code: Option<nat>, data: bytes, w: Windows.Window, schedule: Windows.Schedule)
    requires Inv(s) && id in s.client && s.chans[s.client[id]].recipient.Some?
    ensures var t := After(MUX, s, Delivery(s, id, code, data, w, schedule));
      var ids, messages := StoredIds(s.client, 0, s.counter), DataMessages(To(s.chans[s.client[id]]), code, Windows.Sending(w, data, schedule).chunks);
      && Possible(MUX, s, Delivery(s, id, code, data, w, schedule))
      && (t.s.client == map[] <==> Stuck(data, w, schedule))
      && (Stuck(data, w, schedule) ==> TornDown(s, ids, t.s) && t.outputs == Tell(s, s.client[id], messages) + Goodbyes(s, ids))
      && (!Stuck(data, w, schedule) ==> t == Effect(s, Tell(s, s.client[id], messages)))
  {
    var t := Windows.Sending(w, data, schedule);
    DoneExactly(w, data, schedule);
    if t.outcome.Done? {
      var messages := Tell(s, s.client[id], DataMessages(To(s.chans[s.client[id]]), code, t.chunks));
      DataFirst(s, id, code, t.chunks, []);
      assert messages + [] == messages;
    } else {
      var ids := StoredIds(s.client, 0, s.counter);
      AllStored(s);
      ClosingsTearDown(s, ids);
      TornDownIsEmpty(s, After(MUX, s, Closings(ids)).s);
      DataFirst(s, id, code, t.chunks, Closings(ids));
    }
  }

  // What a delivery sends on its own channel.
  function DataOut(s: State, id: nat, code: Option<nat>, chunks: seq<bytes>): seq<Output> {
    if id in s.client && s.client[id] < |s.chans| then Tell(s, s.client[id], DataMessages(To(s.chans[s.client[id]]), code, chunks)) else []
  }

  lemma DataGoesOut(s: State, id: nat, code: Option<nat>, chunks: seq<bytes>)
    requires Inv(s)
    ensures OnClient(s, if code.Some? then SentExtended(id, code.value, chunks) else SentData(id, chunks)) == Effect(s, DataOut(s, id, code, chunks))
  {
    if id in s.client { DataKeepsState(s, id, code, chunks); }
  }

  // The teardown behind a run.
  lemma TeardownBehind(start: State, events: seq<Event>, s: State, log: seq<Output>)
    requires Inv(s) && After(MUX, start, events) == Effect(s, log)
    ensures var ids := StoredIds(s.client, 0, s.counter); var t := After(MUX, start, events + Closings(ids));
      TornDown(s, ids, t.s) && t.s.client == map[] && t.outputs == log + Goodbyes(s, ids)
  {
    var ids := StoredIds(s.client, 0, s.counter);
    AllStored(s);
    ClosingsTearDown(s, ids);
    RunAppend(MUX, start, events, Closings(ids));
    TornDownIsEmpty(s, After(MUX, s, Closings(ids)).s);
  }

  // ------------------------------------------------- with other threads between

  predicate Gone(s: State, id: nat) {
    id < s.counter && id !in s.client
  }

  lemma GoneStays(s: State, e: Event, id: nat)
    requires Inv(s) && Enabled(s, e) && Gone(s, id)
    ensures Gone(Handle(s, e).s, id)
  {
    if !Opens(s, e) { OthersShrink(s, e); }
  }

  lemma CloseForgets(s: State, id: nat)
    requires Inv(s) && id < s.counter
    ensures Gone(OnClient(s, SentClose(id)).s, id)
  {
    if id in s.client { StoredAs(s, id); }
  }

  lemma CounterGrows(s: State, e: Event)
    requires Inv(s) && Enabled(s, e)
    ensures Handle(s, e).s.counter >= s.counter
  {
    if !Opens(s, e) { OthersShrink(s, e); }
  }

  // Whatever the threads of the operators do between the lines of the teardown, none of the
  // channels it found is stored when it is over.
  lemma {:induction false} TeardownForgets(s: State, events: seq<Event>, id: nat)
    requires Inv(s) && Possible(MUX, s, events) && id < s.counter && (Client(SentClose(id)) in events || Gone(s, id))
    ensures Gone(After(MUX, s, events).s, id)
    decreases events
  {
    if events != [] {
      HandleKeeps(s, events[0]);
      CounterGrows(s, events[0]);
      if events[0] == Client(SentClose(id)) { CloseForgets(s, id); }
      if Gone(s, id) { GoneStays(s, events[0], id); }
      TeardownForgets(Handle(s, events[0]).s, events[1..], id);
    }
  }
}
