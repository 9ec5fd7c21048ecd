/** The channels of the reverse client (client.py) and the threads that send on them: the thread
    that reads frames from the relay, the readers of pipes, terminals and TCP connections, and the
    threads that wait for processes, as a state machine.

    A thread looks at the `closed` flag of its channel in one step and acts on it in a later one;
    what the other threads do in between is up to the schedule. */
module ClientChannels {
  import opened Wrappers
  import opened Bits
  import opened Runs

  // ----------------------------------------------------------------- state

  datatype Kind = Session | DirectTcp

  datatype Process = NotStarted | Terminal | Pipes

  // SessionChannel or DirectTCPChannel.
  datatype Channel = Channel(id: nat, kind: Kind, closed: bool, process: Process, sftp: bool)

  // Where a thread is.  `Test`, `Mark`, `SendClose` and `Pop` are the lines of on_close; the flag
  // says whether a CLOSE is to be sent.
  datatype Place =
    | Loop                       // at the head of a reader's loop
    | Reading                    // in it, with the flag looked at
    | Feeding                    // in SFTPServer.feed
    | Waiting                    // for the process
    | Finish(status: int)        // _finish_with_status
    | SendStatus(status: int)
    | SendEof
    | Test(send: bool)
    | Mark(send: bool)
    | SendClose
    | Pop
    | Stopped

  datatype Thread = Thread(ref: nat, place: Place, code: Option<nat>)

  datatype State = State(
    listed: map<nat, nat>,       // ReverseClientConnection.channels: id to channel
    chans: seq<Channel>,
    threads: seq<Thread>,
    main: Option<nat>)           // what the reader of frames is busy with

  const START := State(map[], [], [], None)

  // ------------------------------------------------------- events and output

  // What a request of the relay amounts to for a session.
  datatype Request = StartProcess(terminal: bool) | StartSftp | Failing | Harmless

  datatype FromRelay =
    | OpenChannel(id: nat, kind: Option<Kind>, connected: bool)
    | GotData(id: nat, fails: bool)      // `fails` when the terminal cannot be written to
    | GotRequest(id: nat, request: Request)
    | GotEof(id: nat)
    | GotClose(id: nat)

  // What a thread meets in its next step.
  datatype Choice = Goes | Got(data: bytes) | Ends | Exits(status: int)

  datatype Event = Relay(frame: FromRelay) | Turn(thread: nat, choice: Choice)

  datatype Frame =
    | OpenConfirm(id: nat, ok: bool)
    | ChannelData(id: nat, data: bytes)
    | ChannelExtended(id: nat, code: nat, data: bytes)
    | ExitStatus(id: nat, status: nat)
    | ChannelEof(id: nat)
    | ChannelClose(id: nat)

  // `owner` is the channel object on whose behalf a frame is sent.
  datatype Output = Sent(owner: Option<nat>, frame: Frame)

  const CHANNEL_MAX_PACKET: nat := 32768
  const EXTENDED_DATA_STDERR: nat := 1

  // ----------------------------------------------------------------- steps

  predicate Idle(s: State) {
    s.main.None? || s.main.value >= |s.threads| || s.threads[s.main.value].place.Stopped?
  }

  predicate Fits(place: Place, choice: Choice) {
    match place
    case Reading => choice.Ends? || (choice.Got? && 1 <= |choice.data| <= CHANNEL_MAX_PACKET)
    case Feeding => choice.Ends? || (choice.Got? && 1 <= |choice.data| <= CHANNEL_MAX_PACKET)
    case Waiting => choice.Exits?
    case Stopped => false
    case _ => choice.Goes?
  }

  predicate Enabled(s: State, e: Event) {
    match e
    case Relay(_) => Idle(s)
    case Turn(i, choice) => i < |s.threads| && s.threads[i].ref < |s.chans| && Fits(s.threads[i].place, choice)
  }

  // A reader leaves its loop; that of a TCP connection sends EOF and CLOSE.
  function Left(kind: Kind): Place {
    if kind.Session? then Stopped else SendEof
  }

  function DataFrame(id: nat, code: Option<nat>, data: bytes): Frame {
    if code.Some? then ChannelExtended(id, code.value, data) else ChannelData(id, data)
  }

  // Where the thread goes, and what it sends.
  datatype Move = Move(place: Place, frames: seq<Frame>)

  function Moves(ch: Channel, place: Place, code: Option<nat>, choice: Choice): Move
    requires Fits(place, choice)
  {
    match place
    case Loop => Move(if ch.closed then Left(ch.kind) else Reading, [])
    case Reading => if choice.Ends? then Move(Left(ch.kind), []) else Move(Loop, [DataFrame(ch.id, code, choice.data)])
    case Feeding => if choice.Ends? then Move(Stopped, []) else Move(Feeding, [DataFrame(ch.id, code, choice.data)])
    case Waiting => Move(Finish(choice.status), [])
    case Finish(status) => Move(if ch.closed then Stopped else SendStatus(status), [])
    case SendStatus(status) => Move(SendEof, [ExitStatus(ch.id, status % 0x1_0000_0000)])
    case SendEof => Move(Test(true), [ChannelEof(ch.id)])
    case Test(send) => Move(if ch.closed then Stopped else Mark(send), [])
    case Mark(send) => Move(if send then SendClose else Stopped, [])
    case SendClose => Move(Pop, [ChannelClose(ch.id)])
    case Pop => Move(Stopped, [])
  }

  function Owned(ref: nat, frames: seq<Frame>): seq<Output> {
    seq(|frames|, i requires 0 <= i < |frames| => Sent(Some(ref), frames[i]))
  }

  function OnTurn(s: State, i: nat, choice: Choice): Effect<State, Output>
    requires Enabled(s, Turn(i, choice))
  {
    var t, ch := s.threads[i], s.chans[s.threads[i].ref];
    var m := Moves(ch, t.place, t.code, choice);
    Effect(
      s.(threads := s.threads[i := t.(place := m.place)],
         chans := if t.place.Mark? then s.chans[t.ref := ch.(closed := true)] else s.chans,
         listed := if t.place.Pop? then s.listed - {ch.id} else s.listed),
      Owned(t.ref, m.frames))
  }

  // A thread more, and what the reader of frames does itself.
  function Started(s: State, ref: nat, place: Place, code: Option<nat>): State {
    s.(threads := s.threads + [Thread(ref, place, code)])
  }

  function Busy(s: State, ref: nat, place: Place): State {
    Started(s, ref, place, None).(main := Some(|s.threads|))
  }

  function OnOpen(s: State, id: nat, kind: Option<Kind>, connected: bool): Effect<State, Output> {
    var ref := |s.chans|;
    match kind
    case None => Effect(s, [Sent(None, OpenConfirm(id, false))])
    case Some(Session) =>
      Effect(s.(chans := s.chans + [Channel(id, Session, false, NotStarted, false)], listed := s.listed[id := ref]),
             [Sent(None, OpenConfirm(id, true))])
    case Some(DirectTcp) =>
      if connected then
        Effect(Started(s.(chans := s.chans + [Channel(id, DirectTcp, false, NotStarted, false)], listed := s.listed[id := ref]), ref, Loop, None),
               [Sent(None, OpenConfirm(id, true))])
      else Effect(s, [Sent(None, OpenConfirm(id, false))])
  }

  // _start_process, unless there is a process.
  function WithProcess(s: State, ref: nat, terminal: bool): State
    requires ref < |s.chans|
  {
    var ch := s.chans[ref];
    if !ch.process.NotStarted? then s
    else
      var t := s.(chans := s.chans[ref := ch.(process := if terminal then Terminal else Pipes)]);
      var u := Started(t, ref, Loop, None);
      Started(if terminal then u else Started(u, ref, Loop, Some(EXTENDED_DATA_STDERR)), ref, Waiting, None)
  }

  // A frame for a channel that is listed.
  function OnSession(s: State, ref: nat, f: FromRelay): State
    requires ref < |s.chans|
  {
    var ch := s.chans[ref];
    match f
    case GotData(_, fails) => if ch.sftp then Busy(s, ref, Feeding) else if ch.process.Terminal? && fails then Busy(s, ref, Test(true)) else s
    case GotRequest(_, request) =>
      (match request
       case StartProcess(terminal) => WithProcess(s, ref, terminal)
       case StartSftp => s.(chans := s.chans[ref := ch.(sftp := true)])
       case Failing => Busy(s, ref, Finish(1))
       case Harmless => s)
    case GotEof(_) => if ch.sftp then Busy(s.(chans := s.chans[ref := ch.(sftp := false)]), ref, Finish(0)) else s
    case _ => s
  }

  function OnRelay(s: State, f: FromRelay): Effect<State, Output> {
    if f.OpenChannel? then OnOpen(s, f.id, f.kind, f.connected)
    else if f.id !in s.listed || s.listed[f.id] >= |s.chans| then Effect(s, [])
    else
      var ref := s.listed[f.id];
      if f.GotClose? then Effect(Busy(s.(listed := s.listed - {f.id}), ref, Test(false)), [])
      else if s.chans[ref].kind.Session? then Effect(OnSession(s, ref, f), [])
      else Effect(s, [])
  }

  function Handle(s: State, e: Event): Effect<State, Output>
    requires Enabled(s, e)
  {
    match e
    case Relay(f) => OnRelay(s, f)
    case Turn(i, choice) => OnTurn(s, i, choice)
  }

  const CLIENT: System<State, Event, Output> :=
    System(Enabled, (s: State, e: Event) => if Enabled(s, e) then Handle(s, e) else Effect(s, []))

  // ------------------------------------------------------------- invariant

  // A thread belongs to a channel, and has marked it closed before it sends CLOSE.
  predicate ThreadAt(s: State, i: nat)
    requires i < |s.threads|
  {
    s.threads[i].ref < |s.chans| && (s.threads[i].place.SendClose? || s.threads[i].place.Pop? ==> s.chans[s.threads[i].ref].closed)
  }

  predicate ListedAt(s: State, id: nat)
    requires id in s.listed
  {
    s.listed[id] < |s.chans| && s.chans[s.listed[id]].id == id
  }

  ghost predicate Inv(s: State) {
    && (forall i :: 0 <= i < |s.threads| ==> ThreadAt(s, i))
    && (forall id :: id in s.listed ==> ListedAt(s, id))
    && (s.main.Some? ==> s.main.value < |s.threads|)
  }

  // Channels keep their ids and kinds, and stay closed.
  predicate Stays(s: State, t: State) {
    && |s.chans| <= |t.chans|
    && forall ref :: 0 <= ref < |s.chans| ==>
         t.chans[ref].id == s.chans[ref].id && t.chans[ref].kind == s.chans[ref].kind && (s.chans[ref].closed ==> t.chans[ref].closed)
  }

  lemma HandleStays(s: State, e: Event)
    requires Enabled(s, e)
    ensures Stays(s, Handle(s, e).s)
  {}

  lemma TurnKeeps(s: State, i: nat, choice: Choice)
    requires Inv(s) && Enabled(s, Turn(i, choice))
    ensures Inv(OnTurn(s, i, choice).s)
  {
    var t := OnTurn(s, i, choice).s;
    assert ThreadAt(s, i);
    forall k | 0 <= k < |t.threads|
      ensures ThreadAt(t, k)
    {
      assert ThreadAt(s, k);
    }
    forall id | id in t.listed
      ensures ListedAt(t, id)
    {
      assert ListedAt(s, id);
    }
  }

  // More channels and threads, which have not come to an end yet.
  ghost predicate Grows(s: State, t: State) {
    && Stays(s, t) && (t.main.Some? ==> t.main.value < |t.threads|)
    && |s.threads| <= |t.threads| && (forall i :: 0 <= i < |s.threads| ==> t.threads[i] == s.threads[i])
    && (forall i :: |s.threads| <= i < |t.threads| ==>
          t.threads[i].ref < |t.chans| && !t.threads[i].place.Mark? && !t.threads[i].place.SendClose? && !t.threads[i].place.Pop?)
    && (forall id :: id in t.listed ==> ListedAt(t, id))
  }

  lemma GrowsKeeps(s: State, t: State)
    requires Inv(s) && Grows(s, t)
    ensures Inv(t)
  {
    forall i | 0 <= i < |t.threads|
      ensures ThreadAt(t, i)
    {
      if i < |s.threads| { assert ThreadAt(s, i); }
    }
  }

  lemma OpenGrows(s: State, id: nat, kind: Option<Kind>, connected: bool)
    requires Inv(s)
    ensures Grows(s, OnOpen(s, id, kind, connected).s)
  {
    forall other | other in OnOpen(s, id, kind, connected).s.listed
      ensures ListedAt(OnOpen(s, id, kind, connected).s, other)
    {
      if other in s.listed { assert ListedAt(s, other); }
    }
  }

  lemma ListingStays(s: State, t: State)
    requires Inv(s) && Stays(s, t) && t.listed == s.listed
    ensures forall id :: id in t.listed ==> ListedAt(t, id)
  {
    forall id | id in t.listed
      ensures ListedAt(t, id)
    {
      assert ListedAt(s, id);
    }
  }

  lemma ProcessGrows(s: State, ref: nat, terminal: bool)
    requires Inv(s) && ref < |s.chans|
    ensures Grows(s, WithProcess(s, ref, terminal))
  {
    ListingStays(s, WithProcess(s, ref, terminal));
  }

  lemma SessionGrows(s: State, ref: nat, f: FromRelay)
    requires Inv(s) && ref < |s.chans|
    ensures Grows(s, OnSession(s, ref, f))
  {
    if f.GotRequest? && f.request.StartProcess? {
      ProcessGrows(s, ref, f.request.terminal);
    } else {
      ListingStays(s, OnSession(s, ref, f));
    }
  }

  lemma RelayGrows(s: State, f: FromRelay)
    requires Inv(s)
    ensures Grows(s, OnRelay(s, f).s)
  {
    var t := OnRelay(s, f).s;
    if f.OpenChannel? {
      OpenGrows(s, f.id, f.kind, f.connected);
    } else if f.id in s.listed {
      assert ListedAt(s, f.id);
      if f.GotClose? {
        forall other | other in t.listed
          ensures ListedAt(t, other)
        {
          assert ListedAt(s, other);
        }
      } else {
        SessionGrows(s, s.listed[f.id], f);
        ListingStays(s, s);
      }
    } else {
      ListingStays(s, s);
    }
  }

  lemma HandleKeeps(s: State, e: Event)
    requires Inv(s) && Enabled(s, e)
    ensures Inv(Handle(s, e).s)
  {
    match e {
      case Relay(f) =>
        RelayGrows(s, f);
        GrowsKeeps(s, OnRelay(s, f).s);
      case Turn(i, choice) => TurnKeeps(s, i, choice);
    }
  }

  lemma StartConsistent()
    ensures Inv(START) && Keeps(CLIENT, Inv)
  {
    forall s, e | Inv(s) && Enabled(s, e)
      ensures Inv(CLIENT.step(s, e).s)
    {
      HandleKeeps(s, e);
    }
  }
}
