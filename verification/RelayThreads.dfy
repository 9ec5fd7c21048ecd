/** One open channel of relay.py and the two threads that work on it, line by line: the thread of
    the SSH connection, and the one at the other end - the reader of frames of the reverse client
    for a relayed channel, the reader of the TCP connection for a forwarded one.

    RelayMux handles one message in one step.  Here a thread finds the channel in its dictionary in
    one step and does the rest in later ones, and what the other thread does in between is up to
    the schedule. */
module RelayThreads {
  import opened Runs

  datatype Kind = Relayed | Forwarded

  // Messages to the operator, and frames to the client.  Reply answers a request for the channel,
  // Failure is the CHANNEL_FAILURE that answers a request for an unlisted id.
  datatype Message = Data | WindowAdjust | Reply | Request | Eof | Close | Failure

  datatype Output = ToOperator(m: Message) | ToClient(m: Message)

  // The thread of the SSH connection.  `after` is what it tells the operator behind a delivery.
  datatype Ssh =
    | SshIdle
    | Deliver(m: Message, after: seq<Message>)
    | SshTells(m: Message)
    | CloseMarks
    | ClosePasses
    | CloseForgets
    | CloseAnswers

  // The thread at the other end.
  datatype Peer =
    | PeerIdle
    | Reserves(chunks: nat)
    | SendsChunk(chunks: nat)
    | PeerTells(m: Message)
    | Ends
    | Marks
    | Delists
    | Closes
    | Forgets
    | Raised
    | Over

  // `listed` is the entry in the connection's dictionary, `stored` the one in the client's.  `own`
  // says that the operator's number for the channel is also the relay's id for it, and `leaving`
  // that the reader of frames has left its loop.
  datatype State = State(kind: Kind, own: bool, closed: bool, listed: bool, stored: bool, leaving: bool, ssh: Ssh, peer: Peer)

  function Opened(kind: Kind, own: bool): State {
    State(kind, own, false, true, kind.Relayed?, false, SshIdle, PeerIdle)
  }

  // A stray request wants a reply and is for an unlisted id that equals the operator's number for
  // the channel: a request for the channel itself, when `own`, that finds it delisted.
  datatype FromOperator = GotData | GotEof | GotRequest(wantReply: bool) | GotClose | GotStray

  // What arrives at the other end.  A TCP connection ends; a client sends the others, and its
  // reader fails when the connection is lost or another channel makes it raise.
  datatype FromPeer = SentData(chunks: nat) | SentRequest | SentEof | SentClose | Fails | TcpEnds

  datatype Event = SshGets(got: FromOperator) | SshRuns | PeerGets(sent: FromPeer) | PeerRuns(timedOut: bool)

  predicate Enabled(s: State, e: Event) {
    match e
    case SshGets(got) => s.ssh.SshIdle? && (s.own ==> (got.GotStray? ==> !s.listed) && (got == GotRequest(true) ==> s.listed))
    case SshRuns => !s.ssh.SshIdle?
    case PeerGets(sent) => s.peer.PeerIdle? && (sent.SentData? || (sent.TcpEnds? <==> s.kind.Forwarded?))
    case PeerRuns(_) => !s.peer.PeerIdle? && !s.peer.Over?
  }

  // _connection_loop, up to the dictionary.
  function OnOperator(s: State, got: FromOperator): State {
    if got.GotStray? then s.(ssh := SshTells(Failure))
    else if !s.listed then s
    else match got
      case GotData => s.(ssh := Deliver(Data, [WindowAdjust]))
      case GotEof => s.(ssh := Deliver(Eof, []))
      case GotRequest(wantReply) => s.(ssh := Deliver(Request, if wantReply then [Reply] else []))
      case GotClose => s.(listed := false, ssh := CloseMarks)
      case GotStray => s
  }

  // The lines behind it.  A forwarded channel passes data on to its TCP connection.
  function SshGoesTo(s: State): Ssh {
    match s.ssh
    case Deliver(_, after) => if after == [] then SshIdle else SshTells(after[0])
    case CloseMarks => if s.kind.Relayed? then ClosePasses else CloseAnswers
    case ClosePasses => CloseForgets
    case CloseForgets => CloseAnswers
    case _ => SshIdle
  }

  function SshSays(s: State): seq<Output> {
    match s.ssh
    case Deliver(m, _) => if s.kind.Relayed? then [ToClient(m)] else []
    case SshTells(m) => [ToOperator(m)]
    case ClosePasses => [ToClient(Close)]
    case CloseAnswers => [ToOperator(Close)]
    case _ => []
  }

  function SshLine(s: State): Effect<State, Output> {
    Effect(s.(closed := s.closed || s.ssh.CloseMarks?,
              stored := s.stored && !s.ssh.CloseForgets?,
              ssh := SshGoesTo(s)), SshSays(s))
  }

  // The reader of frames, up to the dictionary; the reader of a TCP connection needs none.
  function OnPeer(s: State, sent: FromPeer): State {
    if sent.Fails? then s.(peer := Raised, leaving := true)
    else if s.kind.Relayed? && !s.stored then s
    else match sent
      case SentData(chunks) => if chunks == 0 then s else s.(peer := Reserves(chunks))
      case SentRequest => s.(peer := PeerTells(Request))
      case SentEof => s.(peer := PeerTells(Eof))
      case SentClose => s.(peer := Marks)
      case TcpEnds => s.(peer := Ends)
      case Fails => s
  }

  // reserve_window raises when the channel is closed or the deadline has passed.  The reader of a
  // TCP connection then sends EOF and CLOSE; the reader of frames closes every channel that it
  // finds in its dictionary.
  function PeerGoesTo(s: State, timedOut: bool): Peer {
    match s.peer
    case Reserves(chunks) => if !s.closed && !timedOut then SendsChunk(chunks) else if s.kind.Relayed? then Raised else Ends
    case Raised => if s.stored then Marks else Over
    case SendsChunk(chunks) => if chunks <= 1 then PeerIdle else Reserves(chunks - 1)
    case PeerTells(_) => PeerIdle
    case Ends => Marks
    case Marks => Delists
    case Delists => Closes
    case Closes => if s.kind.Relayed? then Forgets else Over
    case Forgets => if s.leaving then Over else PeerIdle
    case _ => s.peer
  }

  function PeerSays(place: Peer): seq<Output> {
    match place
    case SendsChunk(_) => [ToOperator(Data)]
    case PeerTells(m) => [ToOperator(m)]
    case Ends => [ToOperator(Eof)]
    case Closes => [ToOperator(Close)]
    case _ => []
  }

  function PeerLine(s: State, timedOut: bool): Effect<State, Output> {
    var next := PeerGoesTo(s, timedOut);
    Effect(s.(closed := s.closed || s.peer.Marks?,
              listed := s.listed && !s.peer.Delists?,
              stored := s.stored && !s.peer.Forgets?,
              leaving := s.leaving || next.Raised?,
              peer := next), PeerSays(s.peer))
  }

  function Handle(s: State, e: Event): Effect<State, Output> {
    match e
    case SshGets(got) => Effect(OnOperator(s, got), [])
    case SshRuns => SshLine(s)
    case PeerGets(sent) => Effect(OnPeer(s, sent), [])
    case PeerRuns(timedOut) => PeerLine(s, timedOut)
  }

  const THREADS: System<State, Event, Output> := System(Enabled, Handle)

  // ------------------------------------------------------------- invariant

  // The thread of the SSH connection.
  predicate SshInv(s: State) {
    match s.ssh
    case SshIdle => true
    case Deliver(m, after) => m != Close && |after| <= 1 && (after != [] ==> after[0] != Close && after[0] != Failure)
    case SshTells(m) => m != Close
    case CloseMarks => !s.listed
    case ClosePasses => !s.listed && s.closed && s.kind.Relayed?
    case CloseForgets => !s.listed && s.closed && s.kind.Relayed?
    case CloseAnswers => !s.listed && s.closed && (s.kind.Relayed? ==> !s.stored)
  }

  // The thread at the other end.
  predicate PeerInv(s: State) {
    match s.peer
    case PeerTells(m) => m != Close && m != Failure
    case Ends => s.kind.Forwarded?
    case Raised => s.kind.Relayed?
    case Delists => s.closed
    case Closes => s.closed && !s.listed
    case Forgets => s.closed && !s.listed && s.kind.Relayed?
    case _ => true
  }

  predicate Inv(s: State) {
    SshInv(s) && PeerInv(s)
  }

  // What a line may change: a channel stays closed, delisted and forgotten.
  predicate Onward(s: State, t: State) {
    && t.kind == s.kind && t.own == s.own
    && (s.closed ==> t.closed) && (t.listed ==> s.listed) && (t.stored ==> s.stored)
  }

  lemma SshLineKeeps(s: State)
    requires Inv(s)
    ensures var t := SshLine(s).s; Onward(s, t) && SshInv(t) && t.peer == s.peer
  {}

  lemma PeerLineGoesOn(s: State, timedOut: bool)
    ensures var t := PeerLine(s, timedOut).s; Onward(s, t) && t.ssh == s.ssh
  {}

  lemma PeerLineKeeps(s: State, timedOut: bool)
    requires Inv(s)
    ensures PeerInv(PeerLine(s, timedOut).s)
  {}

  lemma OnOperatorKeeps(s: State, got: FromOperator)
    requires Inv(s) && s.ssh.SshIdle?
    ensures var t := OnOperator(s, got); Onward(s, t) && SshInv(t) && t.peer == s.peer
  {}

  lemma OnPeerKeeps(s: State, sent: FromPeer)
    requires Inv(s) && Enabled(s, PeerGets(sent))
    ensures var t := OnPeer(s, sent); Onward(s, t) && PeerInv(t) && t.ssh == s.ssh
  {}

  // One thread leaves the other's place as it is, and what it does suits that place.
  lemma SuitsTheOther(s: State, t: State)
    requires Inv(s) && Onward(s, t)
    ensures t.peer == s.peer && SshInv(t) ==> Inv(t)
    ensures t.ssh == s.ssh && PeerInv(t) ==> Inv(t)
  {}

  lemma HandleKeeps(s: State, e: Event)
    requires Inv(s) && Enabled(s, e)
    ensures Inv(Handle(s, e).s) && Onward(s, Handle(s, e).s)
  {
    match e {
      case SshGets(got) => OnOperatorKeeps(s, got);
      case SshRuns => SshLineKeeps(s);
      case PeerGets(sent) => OnPeerKeeps(s, sent);
      case PeerRuns(timedOut) =>
        PeerLineGoesOn(s, timedOut);
        PeerLineKeeps(s, timedOut);
    }
    SuitsTheOther(s, Handle(s, e).s);
  }

  lemma OpenedConsistent(kind: Kind, own: bool)
    ensures Inv(Opened(kind, own)) && Keeps(THREADS, Inv)
  {
    forall s, e | Inv(s) && Enabled(s, e)
      ensures Inv(THREADS.step(s, e).s)
    {
      HandleKeeps(s, e);
    }
  }

  // ---------------------------------------------------- towards the client

  predicate PassesNothing(s: State) {
    !s.listed && !s.ssh.Deliver? && !s.ssh.ClosePasses? && !s.ssh.CloseMarks?
  }

  lemma NothingPassed(s: State, e: Event)
    requires Inv(s) && Enabled(s, e) && PassesNothing(s)
    ensures PassesNothing(Handle(s, e).s) && forall k :: 0 <= k < |Handle(s, e).outputs| ==> !Handle(s, e).outputs[k].ToClient?
  {}

  lemma ClosePassed(s: State, e: Event, k: nat)
    requires Inv(s) && Enabled(s, e) && k < |Handle(s, e).outputs| && Handle(s, e).outputs[k] == ToClient(Close)
    ensures PassesNothing(Handle(s, e).s) && |Handle(s, e).outputs| == k + 1
  {}

  // Over all runs and under every schedule, no frame for the channel follows its CHANNEL_CLOSE:
  // one thread sends them all, and takes the channel out of its dictionary first.
  lemma CloseIsFinalForClient(kind: Kind, own: bool, events: seq<Event>, i: nat, j: nat)
    requires Possible(THREADS, Opened(kind, own), events) && i < j < |After(THREADS, Opened(kind, own), events).outputs|
    requires After(THREADS, Opened(kind, own), events).outputs[i] == ToClient(Close)
    ensures !After(THREADS, Opened(kind, own), events).outputs[j].ToClient?
  {
    var about, closes := (o: Output) => o.ToClient?, (o: Output) => o == ToClient(Close);
    var gone, counts := (s: State) => PassesNothing(s), (s: State) => true;
    OpenedConsistent(kind, own);
    forall s, e | Inv(s) && Enabled(s, e) && gone(s)
      ensures GoneStep(THREADS, about, gone, s, e)
    {
      NothingPassed(s, e);
    }
    forall s, e, k | Inv(s) && Enabled(s, e) && 0 <= k < |THREADS.step(s, e).outputs| && closes(THREADS.step(s, e).outputs[k])
      ensures CloseStep(THREADS, about, gone, s, e, k)
    {
      ClosePassed(s, e, k);
    }
    ClosingIsFinal(THREADS, Inv, about, closes, gone, counts, Opened(kind, own), events, i, j);
  }

  // -------------------------------------------------- towards the operator

  // What is looked for behind a CLOSE: another CLOSE, or anything that is said for the channel.
  predicate Wanted(o: Output, onlyClose: bool) {
    o.ToOperator? && !o.m.Failure? && (onlyClose ==> o.m.Close?)
  }

  // Behind a CLOSE to the operator the channel is marked closed and delisted, and forgotten unless
  // the thread that sent it is about to do that.
  predicate Shut(s: State) {
    s.closed && !s.listed && (s.kind.Relayed? && s.stored ==> s.peer.Forgets?)
  }

  // A thread that holds the channel and will still tell the operator something.
  predicate SshInFlight(place: Ssh, onlyClose: bool) {
    match place
    case SshIdle => false
    case Deliver(_, after) => !onlyClose && after != []
    case SshTells(m) => !onlyClose && !m.Failure?
    case _ => true
  }

  // A reader of frames that raises still closes the channel if that is stored.
  predicate PeerInFlight(s: State, onlyClose: bool) {
    match s.peer
    case PeerIdle => s.kind.Forwarded?
    case Reserves(_) => s.kind.Forwarded? || s.stored
    case SendsChunk(_) => s.kind.Forwarded? || !onlyClose
    case PeerTells(_) => s.kind.Forwarded? || !onlyClose
    case Raised => s.stored
    case Forgets => false
    case Over => false
    case _ => true
  }

  predicate InFlight(s: State, onlyClose: bool) {
    SshInFlight(s.ssh, onlyClose) || PeerInFlight(s, onlyClose)
  }

  lemma ShutStep(s: State, e: Event, onlyClose: bool)
    requires Inv(s) && Enabled(s, e) && Shut(s)
    ensures Shut(Handle(s, e).s)
    ensures !InFlight(s, onlyClose) ==>
      !InFlight(Handle(s, e).s, onlyClose) && forall k :: 0 <= k < |Handle(s, e).outputs| ==> !Wanted(Handle(s, e).outputs[k], onlyClose)
  {}

  lemma CloseShuts(s: State, e: Event, k: nat)
    requires Inv(s) && Enabled(s, e) && k < |Handle(s, e).outputs| && Handle(s, e).outputs[k] == ToOperator(Close)
    ensures Shut(Handle(s, e).s)
  {}

  lemma {:induction false} SilentForever(s: State, events: seq<Event>, onlyClose: bool, k: nat)
    requires Inv(s) && Shut(s) && !InFlight(s, onlyClose)
    requires Possible(THREADS, s, events) && k < |After(THREADS, s, events).outputs|
    ensures !Wanted(After(THREADS, s, events).outputs[k], onlyClose)
    decreases events
  {
    var n := |Handle(s, events[0]).outputs|;
    OpenedConsistent(s.kind, s.own);
    ShutStep(s, events[0], onlyClose);
    if k >= n { SilentForever(Handle(s, events[0]).s, events[1..], onlyClose, k - n); }
  }

  // There is a continuation with such an output.
  ghost predicate CanFollow(s: State, onlyClose: bool) {
    exists events, k :: Possible(THREADS, s, events) && 0 <= k < |After(THREADS, s, events).outputs|
                        && Wanted(After(THREADS, s, events).outputs[k], onlyClose)
  }

  lemma FollowsNow(s: State, e: Event, onlyClose: bool)
    requires Enabled(s, e) && Handle(s, e).outputs != [] && Wanted(Handle(s, e).outputs[0], onlyClose)
    ensures CanFollow(s, onlyClose)
  {
    StepFirst(THREADS, s, e, []);
    assert Wanted(After(THREADS, s, [e] + []).outputs[0], onlyClose);
  }

  lemma FollowsLater(s: State, e: Event, onlyClose: bool)
    requires Enabled(s, e) && CanFollow(Handle(s, e).s, onlyClose)
    ensures CanFollow(s, onlyClose)
  {
    var t := Handle(s, e).s;
    var more, k :| Possible(THREADS, t, more) && 0 <= k < |After(THREADS, t, more).outputs| && Wanted(After(THREADS, t, more).outputs[k], onlyClose);
    StepFirst(THREADS, s, e, more);
    assert After(THREADS, s, [e] + more).outputs[|Handle(s, e).outputs| + k] == After(THREADS, t, more).outputs[k];
  }

  function SshAhead(place: Ssh): nat {
    match place
    case SshIdle => 0
    case Deliver(_, _) => 2
    case SshTells(_) => 1
    case CloseMarks => 4
    case ClosePasses => 3
    case CloseForgets => 2
    case CloseAnswers => 1
  }

  lemma {:induction false} SshFollows(s: State, onlyClose: bool)
    requires Inv(s) && SshInFlight(s.ssh, onlyClose)
    ensures CanFollow(s, onlyClose)
    decreases SshAhead(s.ssh)
  {
    SshLineKeeps(s);
    SuitsTheOther(s, Handle(s, SshRuns).s);
    if s.ssh.SshTells? || s.ssh.CloseAnswers? {
      FollowsNow(s, SshRuns, onlyClose);
    } else {
      SshFollows(Handle(s, SshRuns).s, onlyClose);
      FollowsLater(s, SshRuns, onlyClose);
    }
  }

  function PeerAhead(place: Peer): nat {
    match place
    case SendsChunk(_) => 8
    case PeerTells(_) => 8
    case Reserves(_) => 7
    case PeerIdle => 6
    case Raised => 5
    case Ends => 5
    case Marks => 4
    case Delists => 3
    case Closes => 2
    case Forgets => 1
    case Over => 0
  }

  lemma {:induction false} PeerFollows(s: State, onlyClose: bool)
    requires Inv(s) && s.closed && PeerInFlight(s, onlyClose)
    ensures CanFollow(s, onlyClose)
    decreases PeerAhead(s.peer)
  {
    var e := if s.peer.PeerIdle? then PeerGets(TcpEnds) else PeerRuns(true);
    HandleKeeps(s, e);
    if Handle(s, e).outputs != [] && Wanted(Handle(s, e).outputs[0], onlyClose) {
      FollowsNow(s, e, onlyClose);
    } else {
      PeerFollows(Handle(s, e).s, onlyClose);
      FollowsLater(s, e, onlyClose);
    }
  }

  ghost predicate AfterClose(kind: Kind, own: bool, events: seq<Event>) {
    Possible(THREADS, Opened(kind, own), events) && ToOperator(Close) in After(THREADS, Opened(kind, own), events).outputs
  }

  // What has said CLOSE is shut.
  predicate Told(s: State, o: Output) {
    o == ToOperator(Close) ==> Shut(s)
  }

  lemma ClosedIsShut(kind: Kind, own: bool, events: seq<Event>)
    requires Possible(THREADS, Opened(kind, own), events)
    ensures var t := After(THREADS, Opened(kind, own), events); Inv(t.s) && (ToOperator(Close) in t.outputs ==> Shut(t.s))
  {
    var t := After(THREADS, Opened(kind, own), events);
    OpenedConsistent(kind, own);
    RunKeeps(THREADS, Inv, Opened(kind, own), events);
    if ToOperator(Close) in t.outputs {
      var i :| 0 <= i < |t.outputs| && t.outputs[i] == ToOperator(Close);
      forall s, e, k | Inv(s) && THREADS.enabled(s, e) && 0 <= k < |THREADS.step(s, e).outputs|
        ensures Told(THREADS.step(s, e).s, THREADS.step(s, e).outputs[k])
      {
        if THREADS.step(s, e).outputs[k] == ToOperator(Close) { CloseShuts(s, e, k); }
      }
      forall s, e, o | Inv(s) && THREADS.enabled(s, e) && Told(s, o)
        ensures Told(THREADS.step(s, e).s, o)
      {
        if Shut(s) { ShutStep(s, e, false); }
      }
      OutputsMatch(THREADS, Inv, Told, Opened(kind, own), events, i);
    }
  }

  // Behind a CLOSE to the operator, under every schedule: something can still follow, or another
  // CLOSE, if and only if one of the two threads holds the channel and has it still to send.
  lemma BehindClose(kind: Kind, own: bool, events: seq<Event>, onlyClose: bool)
    requires AfterClose(kind, own, events)
    ensures var s := After(THREADS, Opened(kind, own), events).s; CanFollow(s, onlyClose) <==> InFlight(s, onlyClose)
  {
    ClosedIsShut(kind, own, events);
    var s := After(THREADS, Opened(kind, own), events).s;
    if SshInFlight(s.ssh, onlyClose) {
      SshFollows(s, onlyClose);
    } else if PeerInFlight(s, onlyClose) {
      PeerFollows(s, onlyClose);
    } else if more, k :| Possible(THREADS, s, more) && 0 <= k < |After(THREADS, s, more).outputs|
                         && Wanted(After(THREADS, s, more).outputs[k], onlyClose) {
      SilentForever(s, more, onlyClose, k);
    }
  }

  lemma KindStays(kind: Kind, own: bool, events: seq<Event>)
    requires Possible(THREADS, Opened(kind, own), events)
    ensures After(THREADS, Opened(kind, own), events).s.kind == kind
  {
    var keeps := (s: State) => Inv(s) && s.kind == kind;
    forall s, e | keeps(s) && Enabled(s, e)
      ensures keeps(THREADS.step(s, e).s)
    {
      HandleKeeps(s, e);
    }
    OpenedConsistent(kind, own);
    RunKeeps(THREADS, keeps, Opened(kind, own), events);
  }

  // So CLOSE is final for a relayed channel whenever its handlers do not overlap: when the thread
  // that sends it finds the other one idle.
  lemma FinalWithoutOverlap(own: bool, events: seq<Event>, more: seq<Event>, k: nat)
    requires AfterClose(Relayed, own, events)
    requires var s := After(THREADS, Opened(Relayed, own), events).s; s.ssh.SshIdle? && (s.peer.PeerIdle? || s.peer.Forgets? || s.peer.Over?)
    requires var s := After(THREADS, Opened(Relayed, own), events).s;
      Possible(THREADS, s, more) && k < |After(THREADS, s, more).outputs|
    ensures var s := After(THREADS, Opened(Relayed, own), events).s; !Wanted(After(THREADS, s, more).outputs[k], false)
  {
    ClosedIsShut(Relayed, own, events);
    KindStays(Relayed, own, events);
    SilentForever(After(THREADS, Opened(Relayed, own), events).s, more, false, k);
  }

  // --------------------------------------------------- stray requests

  function FailureIn(o: Output): seq<Output> {
    if o == ToOperator(Failure) then [o] else []
  }

  function Failures(outputs: seq<Output>): seq<Output> {
    Gathered((o: Output) => FailureIn(o), outputs)
  }

  function Strays(events: seq<Event>): nat {
    Givings((e: Event) => e == SshGets(GotStray), events)
  }

  // A stray request is being answered.
  function Owed(s: State): nat {
    if s.ssh == SshTells(Failure) then 1 else 0
  }

  lemma OneOutput(o: Output)
    ensures Failures([]) == [] && Failures([o]) == FailureIn(o)
  {
    assert [o][1..] == [];
  }

  lemma SshFailures(s: State)
    requires Inv(s)
    ensures |Failures(SshLine(s).outputs)| + Owed(SshLine(s).s) == Owed(s)
  {
    OneOutput(if SshSays(s) == [] then ToClient(Close) else SshSays(s)[0]);
  }

  lemma PeerFailures(s: State, timedOut: bool)
    requires Inv(s)
    ensures Failures(PeerLine(s, timedOut).outputs) == [] && Owed(PeerLine(s, timedOut).s) == Owed(s)
  {
    OneOutput(if PeerSays(s.peer) == [] then ToClient(Close) else PeerSays(s.peer)[0]);
  }

  lemma StepFailures(s: State, e: Event)
    requires Inv(s) && Enabled(s, e)
    ensures |Failures(Handle(s, e).outputs)| + Owed(Handle(s, e).s) == Owed(s) + if e == SshGets(GotStray) then 1 else 0
  {
    match e {
      case SshRuns => SshFailures(s);
      case PeerRuns(timedOut) => PeerFailures(s, timedOut);
      case _ =>
    }
  }

  lemma {:induction false} FailuresFrom(s: State, events: seq<Event>)
    requires Inv(s) && Possible(THREADS, s, events)
    ensures |Failures(After(THREADS, s, events).outputs)| + Owed(After(THREADS, s, events).s) == Owed(s) + Strays(events)
    decreases events
  {
    if events != [] {
      var first, t := Handle(s, events[0]).outputs, Handle(s, events[0]).s;
      HandleKeeps(s, events[0]);
      StepFailures(s, events[0]);
      FailuresFrom(t, events[1..]);
      GatheredAppend((o: Output) => FailureIn(o), first, After(THREADS, t, events[1..]).outputs);
    }
  }

  // Every stray request is answered by CHANNEL_FAILURE with the number, once, and nothing else is:
  // this goes on behind a CLOSE as before it.
  lemma FailuresAreAnswers(kind: Kind, own: bool, events: seq<Event>)
    requires Possible(THREADS, Opened(kind, own), events)
    ensures var t := After(THREADS, Opened(kind, own), events); |Failures(t.outputs)| + Owed(t.s) == Strays(events)
  {
    OpenedConsistent(kind, own);
    FailuresFrom(Opened(kind, own), events);
  }

  // -------------------------------------------------------- counterexamples

  // Two lines of the SSH connection's thread: the CLOSE is passed on to the client ...
  lemma SshPasses(s: State, more: seq<Event>)
    requires s.kind.Relayed? && s.ssh.CloseMarks?
    requires Possible(THREADS, s.(closed := true, ssh := CloseForgets), more)
    ensures var events := [SshRuns] + ([SshRuns] + more);
      Possible(THREADS, s, events)
      && After(THREADS, s, events).outputs == [ToClient(Close)] + After(THREADS, s.(closed := true, ssh := CloseForgets), more).outputs
  {
    var t := Handle(s, SshRuns).s;
    StepFirst(THREADS, t, SshRuns, more);
    StepFirst(THREADS, s, SshRuns, [SshRuns] + more);
  }

  // ... and answered.
  lemma SshAnswers(s: State, more: seq<Event>)
    requires s.ssh.CloseForgets?
    requires Possible(THREADS, s.(stored := false, ssh := SshIdle), more)
    ensures var events := [SshRuns] + ([SshRuns] + more);
      Possible(THREADS, s, events)
      && After(THREADS, s, events).outputs == [ToOperator(Close)] + After(THREADS, s.(stored := false, ssh := SshIdle), more).outputs
  {
    var t := Handle(s, SshRuns).s;
    StepFirst(THREADS, t, SshRuns, more);
    StepFirst(THREADS, s, SshRuns, [SshRuns] + more);
  }

  // Three lines of the other thread.
  lemma PeerCloses(s: State)
    requires s.peer.Marks?
    ensures var p := PeerRuns(false);
      var events := [p] + ([p] + ([p] + []));
      Possible(THREADS, s, events) && After(THREADS, s, events).outputs == [ToOperator(Close)]
  {
    var p := PeerRuns(false);
    var t := Handle(s, p).s;
    var u := Handle(t, p).s;
    StepFirst(THREADS, u, p, []);
    StepFirst(THREADS, t, p, [p] + []);
    StepFirst(THREADS, s, p, [p] + ([p] + []));
    assert After(THREADS, s, [p] + ([p] + ([p] + []))).outputs == [ToOperator(Close)];
  }

  // The reader has found the channel and closes it behind the answer.
  lemma ClosesBehind(s: State) returns (events: seq<Event>)
    requires s.ssh.CloseForgets? && s.peer.Marks?
    ensures Possible(THREADS, s, events)
    ensures After(THREADS, s, events).outputs == [ToOperator(Close), ToOperator(Close)]
  {
    var p := PeerRuns(false);
    var end := [p] + ([p] + ([p] + []));
    PeerCloses(s.(stored := false, ssh := SshIdle));
    SshAnswers(s, end);
    events := [SshRuns] + ([SshRuns] + end);
  }

  // Both sides close a relayed channel at the same time: the reader of frames has found it when
  // the other thread closes it, and the operator is sent CLOSE twice.
  lemma BothClose(own: bool) returns (events: seq<Event>)
    ensures Possible(THREADS, Opened(Relayed, own), events)
    ensures After(THREADS, Opened(Relayed, own), events).outputs == [ToClient(Close), ToOperator(Close), ToOperator(Close)]
  {
    var start := Opened(Relayed, own);
    var s := Handle(start, PeerGets(SentClose)).s;
    var t := Handle(s, SshGets(GotClose)).s;
    events := ClosesBehind(t.(closed := true, ssh := CloseForgets));
    SshPasses(t, events);
    events := [SshRuns] + ([SshRuns] + events);
    StepFirst(THREADS, s, SshGets(GotClose), events);
    StepFirst(THREADS, start, PeerGets(SentClose), [SshGets(GotClose)] + events);
    events := [PeerGets(SentClose)] + ([SshGets(GotClose)] + events);
  }

  // The reader raises because the channel is closed, finds it stored, and closes it once more
  // behind the answer.
  lemma RaisesBehind(s: State) returns (events: seq<Event>)
    requires s.kind.Relayed? && s.closed && s.stored && s.peer.Reserves? && s.ssh.CloseForgets?
    ensures Possible(THREADS, s, events)
    ensures After(THREADS, s, events).outputs == [ToOperator(Close), ToOperator(Close)]
  {
    var p := PeerRuns(false);
    var t := Handle(s, p).s;
    var u := Handle(t, p).s;
    events := ClosesBehind(u);
    StepFirst(THREADS, t, p, events);
    StepFirst(THREADS, s, p, [p] + events);
    events := [p] + ([p] + events);
  }

  // The operator closes while the reader of frames waits for the window: CLOSE is sent twice.
  lemma RaisedCloses(own: bool) returns (events: seq<Event>)
    ensures Possible(THREADS, Opened(Relayed, own), events)
    ensures After(THREADS, Opened(Relayed, own), events).outputs == [ToClient(Close), ToOperator(Close), ToOperator(Close)]
  {
    var start := Opened(Relayed, own);
    var s := Handle(start, PeerGets(SentData(1))).s;
    var t := Handle(s, SshGets(GotClose)).s;
    events := RaisesBehind(t.(closed := true, ssh := CloseForgets));
    SshPasses(t, events);
    events := [SshRuns] + ([SshRuns] + events);
    StepFirst(THREADS, s, SshGets(GotClose), events);
    StepFirst(THREADS, start, PeerGets(SentData(1)), [SshGets(GotClose)] + events);
    events := [PeerGets(SentData(1))] + ([SshGets(GotClose)] + events);
  }
}
